# Consumption quotas: what the ledger protocol guarantees

The quota controller caps how many objects of a governed kind a consumer workspace may hold. Admission
webhooks reserve a slot in a ledger (`QuotaUsage`) before an object is created; an accounting reconciler
lists the live objects and folds them into the ledger's confirmed count; a sweep drops reservations that
expired. Replicas, reconciler, sweep, API server and clocks interleave freely. This project models that
protocol, the manager that runs one accounting informer per governed export, and the installation of the
webhook entries and limits, and proves what holds over every run.

`dafny verify dfyconfig.toml` checks everything.

## Layout

- `Accounting`: the arithmetic of a ledger on values, with Go's 32-bit wrap-around, and its laws.
- `AccountingLoops`: the same operations as loops over slices, with deep copy and in-place compaction,
  each proved equal to its meaning.
- `QuotaStore`: the compare-and-swap loop against an API server shared with an arbitrary environment,
  which may write any versions in between, refuse a call, or perform it and lose the reply.
- `LedgerRuns`: histories of one ledger. Sweeping is invisible; one slot per key.
- `Protocol`, `ProtocolSafety`, `NoOvershoot`: the machine of separate read, decide and write steps, its
  invariants and the guarantees on every run.
- `HypothesesNeeded`: for each hypothesis, a run that breaks only that one and exceeds the limit.
- `PromptGrants`: for new grants, delays shorter than the time to live are enough for timeliness.
- `ProtocolCalls`: what the loop promises of a call is exactly what one process of that machine does.
- `Contest`: racing requests, beside sweeps, take exactly the free slots, and those already reserved none.
- `ManagerBooks`, `AccountingManager`, `ManagerMachine`, `ManagerSafety`, `ManagerRecovery`,
  `ManagerGuarantees`: the accounting manager as an object, and as a machine of interleaved actors.
- `KeysAndNames`: reservation keys, entry names, the validate path.
- `WebhookEntries`, `PolicyMachine`, `PolicySafety`: the entry list, and the finalizer protocol around it.
- `PolicyReaders`, `PolicyOrphans`: how careful readers never defeat that protocol, and exactly which stale
  reads and blind deletes do.
- `LimitRegistry`, `RegistryMirror`, `MirrorSafety`: the limits, and the watcher that mirrors the quotas into
  them in two locked regions a time, beside the initial listing.
- `Admission`: the validators and the dispatcher.

## When the limit holds

The design (docs/superpowers/specs/2026-06-29-kcp-consumption-quota-design.md:38) asks that the limit is
never exceeded, even momentarily. The code meets this under conditions that `Protocol.Hypotheses` and
`Protocol.Init` state. `HypothesesNeeded` shows that none can be left out (`EachHypothesisIsNeeded`,
`CountedStartNeeded`).

- Timeliness (`InTime`): an admitted object is created, and folded, before the *recorded* expiry of its
  reservation. Section 7.4 of the design asks only that the TTL exceed the admit-to-observe latency, which
  is enough for new grants (`NewGrantsNeedOnlyBePrompt`, with the clock skew taken off) but not for a
  repeated one: the idempotent path does not renew the expiry (internal/accounting/accounting.go:34-38).
- Fresh names (`NoStaleName`): a name is used again only once no listing still in use shows the earlier
  object, because the reconciler lists before it reads the ledger
  (internal/controller/usage_reconciler.go:43-58).
- One object per request UID (`OneObjectPerUid`).
- Listings move forward (`ForwardOnly`), and there is one reconciler per ledger. The accounting manager
  contributes to the latter (`NoLeakedOrDuplicateSet`) but does not establish it: it bounds the sets that
  are not cancelled, and a cancelled set whose goroutine has not ended may still fold beside its replacement.
- A count fits 32 bits when a reservation is decided (`CountFits`). `Used` adds in int32, so a ledger that
  counts past the largest int32 grants again.
- The first ledger counts the objects that already exist (`Init`). `Apply` creates it with nothing confirmed
  (internal/quota/store.go:74-83).

The machine's clock is the fastest one; a process may decide by any earlier reading. Skew between replicas
is thereby part of the theorem, and so is the generateName path, whose reservation key is the request UID
while the object appears under another name.

## Where code and comments differ

- cmd/controller/main.go:89-92 says that the sweep refreshes confirmed counts. `SweepAll` only drops expired
  reservations, and the model follows it.
- internal/controller/webhook_installer.go:220-223 calls entry names unique per resource and identity hash.
  They are for resources of at most 30 and hashes of at most 32 characters (`EntryNamesInjective`), and
  not beyond (`EntryNamesCollide`). They leave out the group, and no installer counts who shares one.
- A registered accounting set is not always referenced, and a referenced key not always running or about to
  be. `RegisteredWithoutReference` and `ReferencedButAbandoned` are the runs; `ReferencesAreTidy` and
  `RecoversThroughoutExactlyWhenKept` say exactly when they are.
- A quota that moves to another reference leaves its old limit in the registry (`MovedReferenceLingers`). `CallMirrorsExactly` says which calls are harmless.
- cmd/webhook/registry_watcher.go:108-112 and 117-124 release the watcher's lock before they touch the
  registry, and the initial listing runs beside the reconciles. Two actors on one quota may therefore leave a
  limit without a quota (`OverlapLeavesStray`) or a quota without its limit (`OverlapLosesLimit`).
  `MirrorsExactlyWhenApart` says which overlaps do, and `MirrorsExactlyWhenConverging` the same for quotas
  that share references or move.
- cmd/controller/main.go:221-225 takes the finalizer's removal to mean that the webhook entry is gone, for
  good. Two stale reads make an exception, and the client, the workspace cluster's, does not promise current
  ones. A removal that reads the webhook configuration from a view older than the entry is told that there
  is none (internal/controller/webhook_installer.go:145-148), and lets the quota go (`OrphanedByStaleRead`).
  A reconcile that reads the quota from a view older than its removal, as after a restart or a change of
  leader, installs the entry again (`OrphanedByBackwardRead`). `NotFoundIsSafeExactlyWhenFresh` and
  `GetIsSafeExactlyWhenFresh` give the conditions, and `CarefulReadersOrphanNothing` says what a reader can do.
- internal/controller/webhook_installer.go:79-81 and 130-132 promise that foreign entries are preserved.
  Deleting the emptied configuration is not conditional on its version (lines 161-167), so an entry installed
  since it was read goes with it (`LostToBlindDelete`). `EntryStaysExactly` says when an entry stays.

## Model

| member | source | states |
|---|---|---|
| NoOvershoot.LimitIsNeverExceeded | docs/superpowers/specs/2026-06-29-kcp-consumption-quota-design.md:375-382 | On every run under the hypotheses: live objects <= live objects, creations in flight and reserved slots together <= the largest limit a grant used (or the initial population) <= the largest limit asked for |
| PromptGrants.NewGrantsNeedOnlyBePrompt | docs/superpowers/specs/2026-06-29-kcp-consumption-quota-design.md:384-388 | If every grant is a new one, decided at a reading no further behind than the skew, and each object is created and folded less than the TTL minus the skew after that decision, then a run that meets the other hypotheses meets timeliness too, and never passes the limit |
| PromptGrants.PromptIsInTime | internal/accounting/accounting.go:42-46 | Each step of such a run is in time |
| NoOvershoot.CoverageIsKept | internal/controller/usage_reconciler.go:43-59 | Every live object is in the last folded listing or holds an unexpired reservation, and every creation in flight holds one, although listing and folding are separate steps |
| NoOvershoot.LedgerNeverUndercounts | internal/webhook/creation_validator.go:70-76 | On any clock the ledger counts at least what exists or is reserved: it errs on the strict side only, generateName included |
| NoOvershoot.LedgerIsExactWhenSettled | docs/superpowers/specs/2026-06-29-kcp-consumption-quota-design.md:349-364 | When the folded listing is current and no reservation outlives its own object, the count is exact |
| NoOvershoot.OneSlotPerKeyInRuns | internal/accounting/accounting.go:31-38 | In every reachable ledger a key holds at most one unexpired reservation, whatever was retried or lost |
| NoOvershoot.VersionsAreImages | internal/quota/store.go:97-113 | A step leaves the status alone, or is a compare-and-swap that found the version its process read; then there is one more version, the image of the previous one under the mutation that process carries, at the reading it decided by |
| ProtocolSafety.StepKeepsInv | internal/quota/store.go:68-113 | Every step of every process keeps coverage, the bound, the confirmed count, one slot per key and what each process still knows of the ledger it read |
| ProtocolSafety.MissedByListing | internal/controller/usage_reconciler.go:44-58 | An object that a listing misses still holds a reservation, and no listed name matches its key |
| ProtocolSafety.SnapshotMoves | internal/accounting/accounting.go:65-79 | Making the listing the snapshot keeps coverage when unmatched reservations stay |
| ProtocolSafety.NeverUndercounts | internal/accounting/accounting.go:19-29 | Under the invariants, objects and reserved slots are at most the tally |
| ProtocolSafety.GrantStillHeld | internal/accounting/accounting.go:31-49 | A grant whose creation is timely and freshly named still has its reservation |
| HypothesesNeeded.EachHypothesisIsNeeded | docs/superpowers/specs/2026-06-29-kcp-consumption-quota-design.md:375-388 | From a proper start, a run can end above the limit by breaking any one of the five hypotheses on steps alone, and cannot by breaking none |
| HypothesesNeeded.TimelinessNeeded | internal/accounting/accounting.go:34-38 | A run breaking only timeliness ends one object above the limit: a repeated grant did not renew its expiry |
| HypothesesNeeded.FreshNamesNeeded | internal/controller/usage_reconciler.go:43-58 | A run breaking only fresh names ends above the limit: an old listing dropped the reservation of a recreated object |
| HypothesesNeeded.ForwardNeeded | internal/controller/usage_reconciler.go:36-38 | A run in which only a listing goes backwards ends above the limit |
| HypothesesNeeded.UidOnceNeeded | internal/webhook/creation_validator.go:70-76 | A run in which only one UID admits two objects ends above the limit |
| HypothesesNeeded.WidthNeeded | internal/accounting/accounting.go:20-29 | A run in which only the 32-bit count overflows ends with one object more than the largest limit |
| HypothesesNeeded.CountedStartNeeded | internal/quota/store.go:74-83 | From a fresh ledger beside an existing object, one run with limit 1 in which every step meets every hypothesis ends with two live objects |
| Contest.ExactlyTheLimit | internal/quota/store.go:32-47 | n distinct keys racing beside any sweeps, all answered, no reservation expiring meanwhile (some may have expired before), h of the keys reserved already: those h are granted, and in every interleaving exactly min(n - h, max(0, limit - used)) of the others |
| Contest.RaceKeepsInv | internal/quota/store.go:68-113 | Throughout a race, unexpired reservations are the initial ones, which stay, plus one per winner that held none, sweeps notwithstanding, and a refusal means the limit is reached for good |
| QuotaStore.Apply | internal/quota/store.go:49-121 | No error: the mutation acted once, atomically, on a version current during the call, at a clock reading of the call. Error: at most one version is the call's, and it is the mutation's image of the one before, which was current during the call. No error when every call to the server is served and others write in fewer turns than there are attempts |
| QuotaStore.Attempt | internal/quota/store.go:68-113 | One turn of the loop: over, failed or to be tried again; with all calls served it does not fail, and is tried again only if others wrote meanwhile |
| QuotaStore.GetOrCreate | internal/quota/store.go:69-95 | The current version, an empty one created if there was none; a creation that comes second is tried again; fails only if a call does |
| QuotaStore.MutateAndUpdate | internal/quota/store.go:97-112 | Writes the mutation of what was read, unless nothing changed, on condition that it is still current |
| QuotaStore.MutationMeaning | internal/accounting/accounting.go:31-79 | Each mutation in terms of the counts and reservations before and after it, and exactly when it changes nothing |
| QuotaStore.StoreReserve | internal/quota/store.go:32-47 | An error never carries a grant, and there is none in calm conditions; otherwise granted iff the key is held or the count is below the limit, and a grant to a key not held adds exactly one reservation that expires one TTL after the reading; nothing else is written |
| QuotaStore.ReconcileCluster | internal/controller/usage_reconciler.go:41-59 | The fold of the earlier listing acts once on a current version: the count becomes the number listed, a reservation stays iff its key is not listed, and it is written iff that changes something; a failed listing writes nothing; no error in calm conditions |
| QuotaStore.SweepAll | internal/controller/usage_reconciler.go:61-74 | Sweeps the ledgers in order up to the first failure, which calm conditions exclude: each keeps its count and exactly the reservations that expire after a reading of its clock, and is written iff something had expired; later ledgers are untouched |
| ProtocolCalls.AnsweredCallsExactly | internal/quota/store.go:68-120 | The answered calls that begin on one history and end within a longer one, with given versions written and a given answer, are exactly those of which Apply promises that they acted once: a process of the protocol machine reads a version of that history, decides and ends there, or by a compare-and-swap that writes the next, while others write the rest |
| ProtocolCalls.FailedCallsExactly | internal/quota/store.go:68-120 | The calls that give up, or write and are left without the reply, are exactly those of which Apply promises at most one effect |
| QuotaStore.ApiServer.Get | internal/quota/store.go:71-95 | Fails iff it is not served; otherwise answers with the current version, or not-found iff there is none |
| QuotaStore.ApiServer.Create | internal/quota/store.go:75-91 | Creates the empty first version iff there is none and it is not refused; may take effect and lose its reply |
| QuotaStore.ApiServer.UpdateStatus | internal/quota/store.go:104-110 | Takes effect iff it is not refused and the version read is current; a conflict otherwise, if served; may take effect and lose its reply |
| LedgerRuns.SweepingIsInvisible | internal/accounting/accounting.go:51-63 | Runs on a monotone clock that differ only in their sweeps give the same answers, the same later Used and the same held keys |
| LedgerRuns.UnsweptRunsAlike | internal/accounting/accounting.go:51-63 | A run and the run without its sweeps end equal up to expired reservations |
| LedgerRuns.AlikeStep | internal/accounting/accounting.go:31-79 | Each mutation takes ledgers equal up to expired reservations to such ledgers, with one answer |
| LedgerRuns.OneSlotPerKey | internal/accounting/accounting.go:34-48 | After any mutations, at any instant no reading ran ahead of, unexpired reservations and reserved keys are equally many |
| LedgerRuns.FastClockDoublesSlot | internal/accounting/accounting.go:34-48 | With one reading ahead of the observer, a key holds two slots |
| Accounting.ReserveMeaning | internal/accounting/accounting.go:31-49 | Granted iff the key is held or the count is below the limit; then exactly that key is held in addition and the tally grew by the slot; a denial changes nothing |
| Accounting.SweepMeaning | internal/accounting/accounting.go:51-63 | Leaves exactly the unexpired reservations and changes neither tally nor held keys, then or later |
| Accounting.HandOff | internal/accounting/accounting.go:65-79 | After folding K, the tally is the size of K plus the unexpired reservations K does not fulfil |
| Accounting.HandOffIsNeutral | docs/superpowers/specs/2026-06-29-kcp-consumption-quota-design.md:354-359 | A fold that adds exactly the fulfilled reservations to the previous count leaves the tally unchanged |
| Accounting.Convergence | docs/superpowers/specs/2026-06-29-kcp-consumption-quota-design.md:379-380 | Settled objects, one fold and one sweep past all expiries, in either order, leave confirmed exact and no reservations; every later fold or sweep changes nothing |
| Accounting.FiltersCommute | internal/accounting/accounting.go:51-79 | Dropping expired and dropping fulfilled reservations commute, order included |
| Accounting.UnexpiredLater | internal/accounting/accounting.go:53-59 | An earlier sweep does not change what a later one leaves |
| Accounting.LiveKeysCount | internal/accounting/accounting.go:19-29 | With one reservation per key, Used counts the distinct reserved keys |
| Accounting.OnePerKeyUnderFold | internal/accounting/accounting.go:65-79 | Folding keeps one unexpired reservation per key |
| Accounting.OnePerKeyUnderSweep | internal/accounting/accounting.go:51-63 | So does sweeping |
| Accounting.WrapDecision | internal/accounting/accounting.go:39 | The wrapped count decides like exact arithmetic iff the tally fits 32 bits |
| Accounting.WrapOverAllows | internal/accounting/accounting.go:19-41 | A ledger whose tally is one past the largest int32 still grants |
| AccountingLoops.DeepCopy | api/v1alpha1/zz_generated.deepcopy.go:204-213 | An equal status over a newly allocated array |
| AccountingLoops.Used | internal/accounting/accounting.go:19-29 | The 32-bit counting loop computes the wrapped tally |
| AccountingLoops.Reserve | internal/accounting/accounting.go:31-49 | The scan and append to a deep copy refine Reserve; the result is the argument itself or over fresh memory, and the argument stays as it was |
| AccountingLoops.CompactUnexpired | internal/accounting/accounting.go:54-60 | Compaction in place leaves the order-preserving filter in front |
| AccountingLoops.CompactUnmatched | internal/accounting/accounting.go:70-76 | Compaction in place leaves the order-preserving filter in front |
| AccountingLoops.Sweep | internal/accounting/accounting.go:51-63 | Refines Sweep over fresh memory; the caller's slice keeps its contents |
| AccountingLoops.FoldConfirmed | internal/accounting/accounting.go:65-79 | Refines FoldConfirmed over fresh memory; the caller's slice keeps its contents |
| AccountingLoops.ComputeConfirmed | internal/controller/usage_reconciler.go:18-25 | Refines the fold of the listed keys |
| ManagerGuarantees.NoLeakedOrDuplicateSet | cmd/controller/accounting.go:331-381 | In every interleaving each launched set is registered under its key or cancelled, no key has two uncancelled sets, and a registration never overwrites another |
| ManagerGuarantees.NothingStaysStuck | cmd/controller/accounting.go:343-362 | A cancelled set still registered has a stopped goroutine on its way to remove it, and a key marked starting has a start in flight |
| ManagerGuarantees.ReferencesAreTidy | cmd/controller/accounting.go:123-151 | Each quota counts under at most one key, no reference set is empty, and a registered set is referenced iff its key did not lose its last reference while its start was in flight, with none since |
| ManagerGuarantees.RemoveTearsDown | cmd/controller/accounting.go:156-183 | At every moment of every run a Remove does exactly that |
| ManagerGuarantees.ReferencesFollowLastWord | cmd/controller/accounting.go:114-163 | Over a whole run, a quota counts under a key iff its last Ensure named that key, and neither its Remove nor a failed start of its own has come since |
| ManagerGuarantees.RecoversThroughoutExactlyWhenKept | cmd/controller/accounting.go:142-151 | While the root context lives, every referenced key is running, being started or waiting to be restarted at every moment of a run iff no step fails the start of an Ensure whose key others reference, or returns from a start whose set has gone from a referenced key, with no retry waiting |
| ManagerGuarantees.ReferencedKeysRecover | cmd/controller/accounting.go:387-435 | In particular, if every start that somebody deferred to ends registered and the root context is not done, a referenced key is running, being started or waiting to be restarted |
| ManagerGuarantees.RegisteredWithoutReference | cmd/controller/accounting.go:405-433 | A run to a running, registered set that nobody references: Remove during an in-flight retry |
| ManagerGuarantees.ReferencedButAbandoned | cmd/controller/accounting.go:411-415 | A run to a referenced key that nobody runs, starts or retries: a retry left in favour of an Ensure that failed |
| ManagerSafety.StepKeepsSafe | cmd/controller/accounting.go:114-183 | Every step keeps: starting names the starts in flight, one each; nothing to overwrite; no leak; a goroutine for each registered set; tidy references; unreferenced sets explained |
| ManagerRecovery.RecoversExactlyWhenKept | cmd/controller/accounting.go:142-151 | While the root context lives, a step keeps referenced keys recovering iff it is kept |
| ManagerRecovery.HonouredIsKept | cmd/controller/accounting.go:133-136 | A step that honours deferrals is kept |
| ManagerRecovery.StepKeepsFallbacks | cmd/controller/accounting.go:361-435 | While the root context lives and referenced keys are recovering, every step keeps that a start in flight which nobody defers to may fail: others who reference its key, if any, have a retry |
| ManagerBooks.DropRefMeaning | cmd/controller/accounting.go:165-183 | The reference leaves every key but the spared one, nobody else's moves, and exactly the sets whose last reference it was are unregistered and cancelled |
| ManagerBooks.EnsureBeginMeaning | cmd/controller/accounting.go:123-138 | Afterwards the reference counts under the key and no other, nobody else's has moved, and the start is claimed iff the key had neither a set nor a start |
| ManagerSafety.AddRefMeaning | cmd/controller/accounting.go:123-131 | Afterwards the quota counts under the given key and no other, and other quotas' references are as before |
| ManagerBooks.DropRefOneMore | cmd/controller/accounting.go:168-182 | One turn of the deleting loop extends what has been dropped by exactly that key |
| ManagerBooks.AccountingKeyInjective | cmd/controller/accounting.go:106-109 | Keys are never empty, and distinct for distinct exports with slash-free group and resource |
| ManagerBooks.QuotaRefInjective | cmd/controller/accounting.go:121 | Distinct quotas have distinct references |
| AccountingManagers.AccountingManager.constructor | cmd/controller/accounting.go:80-104 | Starts with empty books |
| AccountingManagers.AccountingManager.DropRefLocked | cmd/controller/accounting.go:165-183 | The loop over a map it deletes from, in any order, drops the reference everywhere at once |
| AccountingManagers.AccountingManager.EnsureBegin | cmd/controller/accounting.go:123-138 | Afterwards the reference counts under the key and no other, nobody else's has moved, sets of other keys that it alone referenced are gone, and the start is claimed iff the key had neither a set nor a start |
| AccountingManagers.AccountingManager.EnsureEnd | cmd/controller/accounting.go:142-153 | Releases the start; a failure takes this quota's reference back and nobody else's, a success changes nothing else |
| AccountingManagers.AccountingManager.Remove | cmd/controller/accounting.go:156-163 | The quota is in no reference set any more; exactly the sets that it alone referenced are unregistered and cancelled; every other reference, set and start is as before |
| AccountingManagers.AccountingManager.Register | cmd/controller/accounting.go:335-341 | Registers the set before its goroutine exists |
| AccountingManagers.AccountingManager.WatcherEnd | cmd/controller/accounting.go:354-381 | Removes the set only if it is still the registered one, and retries iff references remain |
| AccountingManagers.AccountingManager.RetryBegin | cmd/controller/accounting.go:404-417 | Claims the start iff the key is referenced and neither running nor starting |
| AccountingManagers.AccountingManager.RetryEnd | cmd/controller/accounting.go:421-430 | Releases the start |
| Admission.CreationValidator.constructor | cmd/webhook/dispatch.go:72 | Starts without a reservation seam |
| Admission.CreationValidator.SetResource | internal/webhook/creation_validator.go:35-49 | Rebinds the reference; a seam already set keeps the reference it was made with |
| Admission.CreationValidator.Handle | internal/webhook/creation_validator.go:51-89 | Fail-closed: a CREATE is allowed iff its key holds a reservation or the count is below the limit, at a reading of the call, and denied otherwise; a missing cluster or limit and every error refuse, and write nothing outside a reservation; a nameless request whose UID nobody has reserved is allowed only with a new reservation for that UID; it is answered whenever calls are served and others write in fewer turns than there are attempts |
| Admission.ValidatorDispatcher.constructor | cmd/webhook/dispatch.go:32-40 | Starts with no validators |
| Admission.ValidatorDispatcher.HandlerFor | cmd/webhook/dispatch.go:63-78 | One validator per reference, bound to it for good |
| Admission.ValidatorDispatcher.ServeHTTP | cmd/webhook/dispatch.go:42-61 | Closed until the limits are populated; the URL of the entry built for a rule reaches the validator of that rule's group, resource and identity |
| KeysAndNames.ObjectKeyInjective | internal/quota/objectkey.go:6-18 | Distinct objects have distinct keys, namespaced or not |
| KeysAndNames.RequestKeyTellsApart | internal/webhook/creation_validator.go:70-76 | A key is a uid key iff the request had no name |
| KeysAndNames.RequestKeysAgree | internal/webhook/creation_validator.go:70-76 | Requests share a key iff they name one object, or are one nameless request |
| KeysAndNames.RequestKeyIsListed | internal/quota/objectkey.go:6-11 | A named request reserves under the key its object is listed by |
| KeysAndNames.ObjectKeyReadsBack | internal/quota/objectkey.go:6-8 | A key splits into the namespace, if any, and the name |
| KeysAndNames.ListingCounts | cmd/controller/accounting.go:287-292 | A listing has as many distinct keys as objects, so a fold counts each object once |
| KeysAndNames.EntryLabelFits | internal/controller/webhook_installer.go:220-235 | The first label of an entry name has at most 63 octets (section 2.3.4 of RFC 1035) |
| KeysAndNames.EntryNameIsQualified | internal/controller/webhook_installer.go:220-235 | The name is its label, the resource and the hash when neither is cut, followed by the domain quota.opendefense.cloud |
| KeysAndNames.EntryNamesCollide | internal/controller/webhook_installer.go:220-235 | Two entry names agree iff the truncated resources and hashes do |
| KeysAndNames.EntryNamesInjective | internal/controller/webhook_installer.go:220-235 | Injective for resources of at most 30 and dash-free hashes of at most 32 characters |
| KeysAndNames.PrintedPathParses | internal/controller/webhook_installer.go:213-218 | The parser inverts the printed path iff the segments are slash-free and resource and hash are not empty |
| KeysAndNames.SegmentsParse | cmd/webhook/dispatch.go:80-82 | /validate/{group}/{resource}/{identityHash} parses to that group, resource and hash |
| KeysAndNames.ParsedPathReprints | cmd/webhook/dispatch.go:80-97 | Every accepted path is the print of what it parses to |
| KeysAndNames.JoinSplit | cmd/webhook/dispatch.go:88 | Joining the pieces of a split gives the string back |
| KeysAndNames.SplitFirst | cmd/webhook/dispatch.go:88 | A separator-free first piece splits off alone |
| WebhookEntries.EntriesFollowQuotas | internal/controller/webhook_installer.go:104-176 | With distinct names, after any installs and removals: exactly one current entry for each quota in force, none for others, strangers' entries in place and in order |
| WebhookEntries.RulesInForceAreInstalled | internal/controller/webhook_installer.go:82-124 | The same for rules with different resources or hashes, resources of at most 30 and dash-free hashes of at most 32 characters: exactly the built entry under the built name for each quota in force |
| WebhookEntries.FollowsExactlyWhenDistinct | internal/controller/webhook_installer.go:220-235 | The configuration follows the quotas in every run iff entry names are distinct |
| WebhookEntries.SharedNameIsRemoved | internal/controller/webhook_installer.go:153-167 | Of two quotas sharing a name, removing one removes the other's enforcement |
| WebhookEntries.UpsertInto | internal/controller/webhook_installer.go:104-116 | The loop replaces the first entry of the name in place, or appends |
| WebhookEntries.UpsertAt | internal/controller/webhook_installer.go:107-113 | Upsert by position: update at the first match, append at the end without one |
| WebhookEntries.UpsertLeavesOthers | internal/controller/webhook_installer.go:79-81 | Upsert touches no entry of another name, nor the order of the others |
| WebhookEntries.UpsertOwn | internal/controller/webhook_installer.go:104-116 | Afterwards the new entry is the only one of its name |
| WebhookEntries.DropLeavesOthers | internal/controller/webhook_installer.go:130-132 | Removal leaves no entry of the name and everything else in order |
| WebhookEntries.FilterOut | internal/controller/webhook_installer.go:153-159 | The loop leaves the other entries, in order |
| WebhookEntries.InstallerReconcile | internal/controller/webhook_installer.go:82-124 | No identity, no effect; success means the entry is upserted, and the first of its name intercepts every version of the rule's resource and points to the base URL followed by /validate/group/resource/hash; a failure leaves the old or the upserted list; no failure when read and write are served |
| WebhookEntries.EntryMeaning | internal/controller/webhook_installer.go:179-218 | Every field of a built entry; the path of its URL parses to the rule's group, resource and hash |
| WebhookEntries.UpsertEnforces | internal/controller/webhook_installer.go:104-116 | After the upsert the first entry of the name is the one built for the rule |
| WebhookEntries.InstallerRemove | internal/controller/webhook_installer.go:133-177 | Success means the entry is gone, and an emptied configuration deleted; a failure leaves the old or the filtered list; no failure when read and write are served |
| WebhookEntries.Configuration.Write | internal/controller/webhook_installer.go:162-174 | A write is refused, performed, or performed without a reply |
| PolicySafety.NoOrphanedEntry | internal/controller/consumptionquota_controller.go:61-150 | In every run in which removals are told rightly that there is no configuration, and a read that shows a quota alive, finalized and stamped is of one that is so still but for being deleted: at every moment an installed entry of a quota belongs to one that exists, carries the finalizer and has its identity, whatever else fails or is read stale |
| PolicySafety.NotGoneBeforeItsEntry | internal/controller/consumptionquota_controller.go:126-149 | In such runs, when a quota disappears, the entry that was its alone is not installed |
| PolicyOrphans.NotFoundIsSafeExactlyWhenFresh | internal/controller/webhook_installer.go:144-148 | A removal told that there is no configuration leaves no orphan once the quota is let go iff the quota's entry was indeed not installed, or a newer version of the quota makes letting go conflict |
| PolicyOrphans.OrphanedByStaleRead | internal/controller/consumptionquota_controller.go:128-147 | From nothing and by fresh steps only, to a removal that is told wrongly that there is no configuration, and on to an installed entry whose quota is gone |
| PolicyOrphans.GetIsSafeExactlyWhenFresh | internal/controller/consumptionquota_controller.go:62-121 | The installation that follows a read of a quota alive, finalized and stamped leaves no orphan iff the quota still is finalized and stamped |
| PolicyOrphans.OrphanedByBackwardRead | internal/controller/consumptionquota_controller.go:62-121 | From nothing and by fresh steps only, through a whole life of a quota, to a read of it that goes back to before its removal, and on to an entry installed for a quota that is gone |
| PolicyReaders.CarefulReadersOrphanNothing | internal/controller/consumptionquota_controller.go:61-150 | Readers whose reads of a quota never go back, and whose removals read the current configuration or are told rightly that there is none, orphan no entry |
| PolicyReaders.StepStaysAhead | internal/controller/consumptionquota_controller.go:71-84 | With forward reads, what can still be read of a quota as alive and finalized has stayed finalized |
| PolicyOrphans.EntryLostExactly | internal/controller/webhook_installer.go:153-176 | Whatever was read stale and whatever is orphaned: a step removes an installed entry iff it is the removal of its quota taking effect, or somebody else deletes the configuration having read it before its present version |
| PolicyOrphans.EntryStaysExactly | internal/controller/webhook_installer.go:153-176 | Over any run, an installed entry is installed throughout iff no step is such a removal or such a delete |
| PolicyOrphans.StepRemembers | internal/controller/webhook_installer.go:104-172 | Every step keeps that a write to come remembers a version of the configuration and what was read there, less at most the quota's own entry |
| PolicyOrphans.CurrentInstallSucceeds | internal/controller/webhook_installer.go:104-116 | A reconcile that read the current configuration and is answered leaves its entry installed |
| PolicyOrphans.LostToBlindDelete | internal/controller/webhook_installer.go:161-167 | From nothing and by fresh steps only: a reconciled quota's entry goes with the configuration that another quota's removal had read before |
| PolicySafety.StepKeepsInv | internal/controller/consumptionquota_controller.go:61-150 | Every API call of every reconcile whose answer is fresh, and every user action, keeps entries owned |
| MirrorSafety.RegistryMirrorsQuotas | cmd/webhook/registry_watcher.go:58-125 | One stable reference per quota, any actors that keep apart: whenever nobody is between two regions the registry is exactly reference to last limit over the known quotas, and at every moment the writes still owed lead there in any order |
| MirrorSafety.MirrorsExactlyWhenApart | cmd/webhook/registry_watcher.go:108-123 | From a state on course, a remember or forget keeps every order of the second regions ending in the mirror iff nobody is between the two regions of that quota with another limit in hand |
| MirrorSafety.MirrorsExactlyWhenAgreed | cmd/webhook/registry_watcher.go:108-123 | Every order of the second regions still to come ends in the mirror iff each of them, and each limit at rest, agrees with what was seen last |
| MirrorSafety.MirrorsExactlyWhenConverging | cmd/webhook/registry_watcher.go:99-125 | For any quotas, shared or moved, and calls that overlap: every order of the second regions still to come ends in the mirror iff each of those writes, and each limit where none is owed, is the last limit of every known quota on that reference, or nothing when there is none |
| MirrorSafety.MirrorsExactlyWhenAlone | cmd/webhook/registry_watcher.go:99-125 | For quotas that do not move and actors that keep apart, every run that comes to rest ends in the mirror iff no two quotas share a reference |
| MirrorSafety.CallMirrorsExactly | cmd/webhook/registry_watcher.go:99-125 | From a mirror at rest, for any quotas, shared or moved: a remember keeps it iff the others on the reference have the same limit and the quota's earlier reference, if another, is still somebody's; a forget iff the reference was nobody else's |
| MirrorSafety.CallsMirrorExactly | cmd/webhook/registry_watcher.go:99-125 | One call after another, the registry mirrors the known quotas after each iff each is harmless in that sense |
| MirrorSafety.OverlapLeavesStray | cmd/webhook/registry_watcher.go:108-123 | The listing remembers a quota while a reconcile forgets it: nothing is known and its limit stays |
| MirrorSafety.OverlapLosesLimit | cmd/webhook/registry_watcher.go:108-123 | The other order: the quota is known and its limit gone |
| MirrorSafety.SharedReferenceIsForgotten | cmd/webhook/registry_watcher.go:115-125 | Of two quotas sharing a reference, forgetting one makes the other's limit unknown |
| MirrorSafety.MovedReferenceLingers | cmd/webhook/registry_watcher.go:101-113 | A quota that moved and then went leaves its first reference's limit behind |
| MirrorSafety.FirstRegionAgrees | cmd/webhook/registry_watcher.go:108-120 | The first region keeps the writes owed in agreement iff the actor is apart |
| MirrorSafety.FinishAgrees | cmd/webhook/registry_watcher.go:112-124 | The second region of an agreeing write brings its quota where it should be and disturbs no other |
| RegistryMirror.RegistryWatcher.constructor | cmd/webhook/registry_watcher.go:45-56 | Knows no quota at first |
| RegistryMirror.RegistryWatcher.Remember | cmd/webhook/registry_watcher.go:99-113 | A run of the mirror in which this actor records the quota and, after whatever others do, sets the limit; with nobody else at work, just that |
| RegistryMirror.RegistryWatcher.Forget | cmd/webhook/registry_watcher.go:115-125 | A run in which it forgets the quota and, if that was known, after whatever others do deletes the limit of the reference it read; with nobody else at work, just that |
| RegistryMirror.RegistryWatcher.Reconcile | cmd/webhook/registry_watcher.go:61-97 | Mirrors one observation by its own steps, beside others; with nobody else at work a missing or deleting quota ends forgotten, a stamped live one known with its limit, any other is left alone; only an unreadable quota is an error |
| RegistryMirror.RegistryWatcher.RememberListed | cmd/webhook/registry_watcher.go:167-175 | Remembers exactly the stamped quotas of a list that are not on their way out, in order, beside others |
| RegistryMirror.RegistryWatcher.TryPopulate | cmd/webhook/registry_watcher.go:148-181 | Ready iff the clients could be built and every shard lists; everything before the first failure is remembered, beside others |
| RegistryMirror.RegistryWatcher.Populate | cmd/webhook/registry_watcher.go:130-195 | Fails iff no attempt is complete; remembers what each attempt lists up to the first complete one, beside others |
| RegistryMirror.RememberAllMeaning | cmd/webhook/registry_watcher.go:167-175 | What is remembered of a list are its stamped quotas that are not being deleted |
| RegistryMirror.ListedMeaning | cmd/webhook/registry_watcher.go:157-176 | An attempt yields what the shards before the first failure hold |
| RegistryMirror.GatheredMeaning | cmd/webhook/registry_watcher.go:148-181 | Several attempts yield what each yields, up to the first complete one |
| LimitRegistry.Registry.constructor | internal/registry/registry.go:21 | Starts without limits |
| LimitRegistry.Registry.Set | internal/registry/registry.go:23-27 | Sets one limit |
| LimitRegistry.Registry.Delete | internal/registry/registry.go:29-33 | Deletes one limit |
| LimitRegistry.Registry.LimitFor | internal/registry/registry.go:35-44 | Found iff the reference has a limit, and then that limit |
| LimitRegistry.Registry.ByGroupResource | internal/registry/registry.go:46-57 | Exactly the references of that group and resource, each once |

## Left out

- The kcp and Kubernetes clients, virtual workspaces, kubeconfig, flags, TLS, probes and wiring: libraries outside the repository. The API server is a versioned store with Get, Create and conditional writes.
- QuotaStore.Apply: backoff timing and the time budget in its comment are not modelled; the number of attempts is arbitrary, and cancellation is one of the failures a call may have.
- Deletion of a ledger object by hand: no code in the repository deletes one, and a recreated ledger would start with nothing confirmed (see CountedStartNeeded).
- The hash behind ledger names (internal/identity/key.go): each model is about one ledger per key.
- Stored expiries are rounded to seconds when serialized. The hypotheses speak of the recorded expiry, whatever rounding produced it.
- AccountingManagers.AccountingManager.Register: the body of start before registration (clients, provider, cache) is one step that succeeds or fails.
- Mutexes: every locked region is one atomic step. A method with two regions is two steps, and others may act between them.
- MirrorSafety.RegistryMirrorsQuotas: what is mirrored is what was seen last. A listing that is older than a reconcile's answer and is remembered after it counts as seen last.
- Contents of the sub-manager: usageKeys, controller names and the sweep ticker. Sweeps may happen at any time in the protocol machine.
- Admission.CreationValidator.Handle: parsing the admission object is left out; the cluster annotation is a parameter, and a reservation seam injected from outside is not modelled.
- KeysAndNames.PrintedPathParses: a base URL with a path of its own is not modelled; it would change the path the dispatcher sees.
- KeysAndNames.EntryLabelFits: lengths count characters, which are octets for the ASCII names the API server admits.
- WebhookEntries.EntriesFollowQuotas: changes by one leader, one after another. Overlapping reconciles are PolicyMachine's, which keeps sets of entry names, not their order or contents.
- WebhookEntries.InstallerReconcile: reads the current configuration, as InstallerRemove does; stale reads are PolicyMachine's.
- PolicySafety.NoOrphanedEntry: holds for runs with fresh answers only (FreshRun), as the code has no guard against stale ones. Entry names are stable (governed fields and identity do not change), a quota has one reconcile in flight, and nobody takes the finalizer off by hand.
- PolicySafety.NotGoneBeforeItsEntry: on the same runs.
- The reconciler process's own copy of the limits (consumptionquota_controller.go:109-114 and 135-139), which nothing in that process reads.
- A second reconciler on one ledger: to the ledger it is a listing that may go backwards, which ForwardNeeded covers.
- Liveness under contention: that a call eventually wins its race. Apply is shown to succeed when others write in fewer turns than there are attempts.
- Self-service grants and aggregate quotas: designed in the documents, not implemented.
- Status conditions, log messages and metrics.
