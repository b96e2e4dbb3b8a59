/**
 The ConsumptionQuota reconciler as a machine of single API calls. Any number of quotas are created,
 edited and deleted by users; each quota has at most one reconcile in flight; reads of a quota and of
 the webhook configuration may be stale and may even go back, as after a restart; conditional writes
 conflict on stale reads; every call may fail or lose its reply; and entry names are stable (names gives
 each quota's).
 */
module PolicyMachine {

  datatype Version = Gone | Present(finalizer: bool, deleting: bool, stamped: bool)

  datatype Fate = Served | Refused | ReplyLost

  /** Where the reconcile of one quota stands; at is the version of the quota it works on. */
  datatype Phase =
    | Idle
    | AddingFinalizer(at: nat)
    | Resolving(at: nat)
    | Stamping(at: nat)
    | Installing(at: nat)
    | Writing(at: nat, version: nat, read: Config)
    | Removing(at: nat)
    | Filtering(at: nat, version: nat, kept: set<string>)
    | Unfinalizing(at: nat)

  datatype Config = NoConfig | Config(entries: set<string>)

  /** quotas holds every version of each quota and configs every version of the webhook configuration,
      the last one being the present; seen and seenConfig are what a read returns now. */
  datatype State = State(
    names: map<string, string>, quotas: map<string, seq<Version>>, seen: map<string, nat>,
    phases: map<string, Phase>, configs: seq<Config>, seenConfig: nat)

  datatype Step =
    | CreateQuota(q: string)
    | DeleteQuota(q: string)
    | TouchQuota(q: string)
    | Sync(q: string, upTo: nat)
    | SyncConfig(q: string, upTo: nat)
    | Get(q: string)
    | AddFinalizer(q: string, fate: Fate)
    | Resolve(q: string)
    | Stamp(q: string, fate: Fate)
    | ReadConfig(q: string)
    | WriteConfig(q: string, fate: Fate)
    | ReadForRemoval(q: string)
    | WriteRemoval(q: string, fate: Fate)
    | Unfinalize(q: string, fate: Fate)
    | Fail(q: string)

  function Versions(s: State, q: string): seq<Version> {
    if q in s.quotas then s.quotas[q] else [Gone]
  }

  function Last(s: State, q: string): Version {
    var vs := Versions(s, q);
    if vs == [] then Gone else vs[|vs| - 1]
  }

  function Seen(s: State, q: string): nat {
    if q in s.seen then s.seen[q] else 0
  }

  function PhaseOf(s: State, q: string): Phase {
    if q in s.phases then s.phases[q] else Idle
  }

  function EntriesOf(c: Config): set<string> {
    if c.NoConfig? then {} else c.entries
  }

  function Installed(s: State): Config {
    if s.configs == [] then NoConfig else s.configs[|s.configs| - 1]
  }

  /** The entries installed now. */
  function Entries(s: State): set<string> {
    EntriesOf(Installed(s))
  }

  function PutConfig(s: State, c: Config): State {
    s.(configs := s.configs + [c])
  }

  function Go(s: State, q: string, ph: Phase): State {
    s.(phases := s.phases[q := ph])
  }

  function Append(s: State, q: string, v: Version): State {
    s.(quotas := s.quotas[q := Versions(s, q) + [v]])
  }

  /** The entry that Remove asks for when it works on version v: nobody's before the identity is known. */
  function Removed(s: State, q: string, v: Version): set<string> {
    if q in s.names && v.Present? && v.stamped then {s.names[q]} else {}
  }

  ghost predicate Working(s: State, q: string) {
    PhaseOf(s, q) != Idle && PhaseOf(s, q).at < |Versions(s, q)|
  }

  ghost predicate Enabled(s: State, step: Step) {
    step.q in s.names &&
    match step
    case CreateQuota(q) => Last(s, q).Gone?
    case DeleteQuota(q) => Last(s, q).Present?
    case TouchQuota(q) => Last(s, q).Present?
    case Sync(q, upTo) => upTo < |Versions(s, q)|
    case SyncConfig(_, upTo) => upTo < |s.configs|
    case Get(q) => PhaseOf(s, q).Idle? && Seen(s, q) < |Versions(s, q)|
    case AddFinalizer(q, _) => PhaseOf(s, q).AddingFinalizer? && Working(s, q) && Versions(s, q)[PhaseOf(s, q).at].Present?
    case Resolve(q) => PhaseOf(s, q).Resolving? && Working(s, q) && Versions(s, q)[PhaseOf(s, q).at].Present?
    case Stamp(q, _) => PhaseOf(s, q).Stamping? && Working(s, q) && Versions(s, q)[PhaseOf(s, q).at].Present?
    case ReadConfig(q) => PhaseOf(s, q).Installing? && s.seenConfig < |s.configs|
    case WriteConfig(q, _) => PhaseOf(s, q).Writing?
    case ReadForRemoval(q) => PhaseOf(s, q).Removing? && Working(s, q) && s.seenConfig < |s.configs|
    case WriteRemoval(q, _) => PhaseOf(s, q).Filtering?
    case Unfinalize(q, _) => PhaseOf(s, q).Unfinalizing? && Working(s, q) && Versions(s, q)[PhaseOf(s, q).at].Present?
    case Fail(_) => true
  }

  /** A conditional write of the quota takes effect while the version read is still the present one. */
  predicate Takes(s: State, q: string, at: nat, fate: Fate) {
    fate != Refused && at + 1 == |Versions(s, q)|
  }

  function Do(s: State, step: Step): State
    requires Enabled(s, step)
  {
    var q := step.q;
    match step
    case CreateQuota(_) => Append(s, q, Present(false, false, false))
    case DeleteQuota(_) =>
      if Last(s, q).finalizer then Append(s, q, Last(s, q).(deleting := true)) else Append(s, q, Gone)
    case TouchQuota(_) => Append(s, q, Last(s, q))
    case Sync(_, upTo) => s.(seen := s.seen[q := upTo])
    case SyncConfig(_, upTo) => s.(seenConfig := upTo)
    case Get(_) =>
      var at := Seen(s, q);
      var v := Versions(s, q)[at];
      if v.Gone? then s
      else if v.deleting then Go(s, q, Removing(at))
      else if !v.finalizer then Go(s, q, AddingFinalizer(at))
      else Go(s, q, Resolving(at))
    case AddFinalizer(_, fate) => DoAddFinalizer(s, q, PhaseOf(s, q).at, fate)
    case Resolve(_) =>
      var at := PhaseOf(s, q).at;
      Go(s, q, if Versions(s, q)[at].stamped then Installing(at) else Stamping(at))
    case Stamp(_, fate) => DoStamp(s, q, PhaseOf(s, q).at, fate)
    case ReadConfig(_) => Go(s, q, Writing(PhaseOf(s, q).at, s.seenConfig, s.configs[s.seenConfig]))
    case WriteConfig(_, fate) => DoWriteConfig(s, q, fate)
    case ReadForRemoval(_) =>
      var at, read := PhaseOf(s, q).at, s.configs[s.seenConfig];
      if read.NoConfig? then Go(s, q, Unfinalizing(at))
      else Go(s, q, Filtering(at, s.seenConfig, read.entries - Removed(s, q, Versions(s, q)[at])))
    case WriteRemoval(_, fate) => DoWriteRemoval(s, q, fate)
    case Unfinalize(_, fate) => DoUnfinalize(s, q, PhaseOf(s, q).at, fate)
    case Fail(_) => Go(s, q, Idle)
  }

  function DoAddFinalizer(s: State, q: string, at: nat, fate: Fate): State
    requires at < |Versions(s, q)| && Versions(s, q)[at].Present?
  {
    var next := if Takes(s, q, at, fate) then Append(s, q, Versions(s, q)[at].(finalizer := true)) else s;
    Go(next, q, Idle)
  }

  function DoStamp(s: State, q: string, at: nat, fate: Fate): State
    requires at < |Versions(s, q)| && Versions(s, q)[at].Present?
  {
    if Takes(s, q, at, fate) then
      Go(Append(s, q, Versions(s, q)[at].(stamped := true)), q,
         if fate == Served then Installing(at + 1) else Idle)
    else Go(s, q, Idle)
  }

  /** The upsert: a Create where the read found nothing, which takes effect when there is nothing; an
      Update otherwise, on condition that nobody wrote since the read; no call if nothing would change. */
  function DoWriteConfig(s: State, q: string, fate: Fate): State
    requires q in s.names && PhaseOf(s, q).Writing?
  {
    var ph := PhaseOf(s, q);
    var takes :=
      && s.names[q] !in EntriesOf(ph.read) && fate != Refused
      && (if ph.read.NoConfig? then Installed(s).NoConfig? else ph.version + 1 == |s.configs|);
    Go(if takes then PutConfig(s, Config(EntriesOf(ph.read) + {s.names[q]})) else s, q, Idle)
  }

  /** The filtered list; deleting the emptied configuration is not conditional on its version. */
  function DoWriteRemoval(s: State, q: string, fate: Fate): State
    requires PhaseOf(s, q).Filtering?
  {
    var ph := PhaseOf(s, q);
    if fate == Refused || (ph.kept != {} && ph.version + 1 != |s.configs|) then Go(s, q, Idle)
    else
      var next := PutConfig(s, if ph.kept == {} then NoConfig else Config(ph.kept));
      Go(next, q, if fate == Served then Unfinalizing(ph.at) else Idle)
  }

  function DoUnfinalize(s: State, q: string, at: nat, fate: Fate): State
    requires at < |Versions(s, q)| && Versions(s, q)[at].Present?
  {
    var next :=
      if Versions(s, q)[at].finalizer && Takes(s, q, at, fate) then Append(s, q, Gone) else s;
    Go(next, q, Idle)
  }

  // ---- the hypotheses ----

  /** A read that shows a quota alive, finalized and with its identity is of one that is so still, but for
      being deleted. */
  ghost predicate FreshGet(s: State, step: Step)
    requires Enabled(s, step)
  {
    step.Get? && Installs(Versions(s, step.q)[Seen(s, step.q)]) ==> Settled(Last(s, step.q))
  }

  /** A removal that is told there is no configuration, working on the quota's present version, is told
      so rightly as far as the quota's own entry goes: the entry is not installed. */
  ghost predicate FreshNotFound(s: State, step: Step)
    requires Enabled(s, step)
  {
    step.ReadForRemoval? && s.configs[s.seenConfig].NoConfig?
    && PhaseOf(s, step.q).at + 1 == |Versions(s, step.q)| ==>
      Removed(s, step.q, Last(s, step.q)) !! Entries(s)
  }

  ghost predicate Fresh(s: State, step: Step)
    requires Enabled(s, step)
  {
    FreshGet(s, step) && FreshNotFound(s, step)
  }

  ghost predicate Run(s: State, steps: seq<Step>, end: State)
    decreases |steps|
  {
    if steps == [] then s == end
    else Enabled(s, steps[0]) && Run(Do(s, steps[0]), steps[1..], end)
  }

  /** A run in which every answer is fresh. */
  ghost predicate FreshRun(s: State, steps: seq<Step>, end: State)
    decreases |steps|
  {
    if steps == [] then s == end
    else
      && Enabled(s, steps[0]) && Fresh(s, steps[0])
      && FreshRun(Do(s, steps[0]), steps[1..], end)
  }

  /** No quota yet; whatever the configuration held belongs to strangers. */
  ghost predicate Init(s: State) {
    && s.quotas == map[] && s.seen == map[] && s.phases == map[]
    && s.seenConfig < |s.configs| && forall c :: c in s.configs ==> EntriesOf(c) !! s.names.Values
  }

  // ---- the invariants ----

  ghost predicate Finalized(v: Version) {
    v.Present? && v.finalizer
  }

  /** The finalizer is on and the identity stamped. */
  ghost predicate Settled(v: Version) {
    Finalized(v) && v.stamped
  }

  /** What a reconcile that reads v goes on to install. */
  ghost predicate Installs(v: Version) {
    Settled(v) && !v.deleting
  }

  /** q keeps its entry in place: it exists with the finalizer and its identity, and no finished removal
      is about to let it go. */
  ghost predicate Owner(s: State, q: string, entry: string) {
    && q in s.names && s.names[q] == entry && Settled(Last(s, q))
    && !(PhaseOf(s, q).Unfinalizing? && PhaseOf(s, q).at + 1 == |Versions(s, q)|)
  }

  ghost predicate Owned(s: State) {
    forall entry :: entry in Entries(s) && entry in s.names.Values ==> exists q :: Owner(s, q, entry)
  }

  ghost predicate PhaseOk(s: State, q: string, ph: Phase) {
    var vs := Versions(s, q);
    ph.Idle? ||
    (ph.at < |vs| && vs[ph.at].Present? &&
     match ph
     case Idle => true
     case AddingFinalizer(at) => true
     case Resolving(at) => Finalized(vs[at]) && (vs[at].stamped ==> Settled(Last(s, q)))
     case Stamping(at) => Finalized(vs[at])
     case Installing(at) => Settled(Last(s, q))
     case Writing(at, version, read) =>
       Settled(Last(s, q)) && version < |s.configs| && read == s.configs[version]
     case Removing(at) => vs[at].deleting
     case Filtering(at, version, kept) =>
       && vs[at].deleting && version < |s.configs|
       && kept == EntriesOf(s.configs[version]) - Removed(s, q, vs[at])
     case Unfinalizing(at) => vs[at].deleting)
  }

  ghost predicate Inv(s: State) {
    Owned(s) && s.seenConfig < |s.configs|
    && forall q :: Seen(s, q) < |Versions(s, q)| && PhaseOk(s, q, PhaseOf(s, q))
  }
}
