/**
 The compare-and-swap loop of internal/quota and the two reconciler operations that run through it,
 against an API server shared with an arbitrary environment: before every call other clients may
 write any number of new versions, and the call may be refused, or take effect and lose its reply.
 */
module QuotaStore {
  import opened Accounting

  /** The three mutations the repository hands to Apply. */
  datatype Mutation =
    | MReserve(key: string, limit: Int32, ttl: int)
    | MFold(liveKeys: seq<string>)
    | MSweep

  /** The status a mutation produces, and the value it leaves in a captured result flag. */
  function Mutate(m: Mutation, st: Status, now: int): (Status, bool) {
    match m
    case MReserve(key, limit, ttl) => Reserve(st, key, limit, now, ttl)
    case MFold(liveKeys) => (ComputeConfirmed(st, liveKeys), false)
    case MSweep => (Sweep(st, now), false)
  }

  // ---- what the mutations amount to ----

  /** after is before with one more reservation for key; it was made below the limit, for a key not held. */
  ghost predicate ReservedBetween(before: Status, after: Status, key: string, limit: Int32, now: int, ttl: int) {
    && (forall r :: r in before.reservations && r.key == key ==> r.expiresAt <= now)
    && Used(before, now) < limit
    && after == Status(before.confirmed, before.reservations + [Reservation(key, now + ttl)])
  }

  /** after counts the listed objects, and keeps the reservations that none of them fulfils, in order. */
  ghost predicate FoldedBetween(before: Status, after: Status, liveKeys: seq<string>) {
    && after.confirmed == Wrap32(|liveKeys|)
    && after.reservations == Unmatched(before.reservations, KeySet(liveKeys))
    && (forall r :: r in after.reservations <==> r in before.reservations && r.key !in liveKeys)
  }

  /** after keeps the reservations that have not expired, in order, and the count. */
  ghost predicate SweptBetween(before: Status, after: Status, now: int) {
    && after.confirmed == before.confirmed
    && after.reservations == Unexpired(before.reservations, now)
    && (forall r :: r in after.reservations <==> r in before.reservations && r.expiresAt > now)
  }

  /** There is nothing to reserve, fold or sweep. */
  ghost predicate NothingToDo(m: Mutation, st: Status, now: int) {
    match m
    case MReserve(key, limit, _) =>
      (exists r :: r in st.reservations && r.key == key && r.expiresAt > now) || Used(st, now) >= limit
    case MFold(liveKeys) =>
      st.confirmed == Wrap32(|liveKeys|) && forall r :: r in st.reservations ==> r.key !in liveKeys
    case MSweep => forall r :: r in st.reservations ==> r.expiresAt > now
  }

  /** Every mutation in terms of the counts and reservations before and after it, and exactly when it changes
      nothing. */
  lemma MutationMeaning(m: Mutation, st: Status, now: int)
    ensures var (out, ok) := Mutate(m, st, now);
            && (out == st <==> NothingToDo(m, st, now))
            && match m
               case MReserve(key, limit, ttl) =>
                 && (out != st ==> ReservedBetween(st, out, key, limit, now, ttl))
                 && (ok <==> Holds(st, key, now) || Used(st, now) < limit)
               case MFold(liveKeys) => FoldedBetween(st, out, liveKeys) && !ok
               case MSweep => SweptBetween(st, out, now) && !ok
  {
    match m
    case MReserve(key, limit, ttl) =>
    case MFold(liveKeys) =>
      UnmatchedMembers(st.reservations, KeySet(liveKeys));
      NothingToDrop(st.reservations, now, KeySet(liveKeys));
    case MSweep =>
      UnexpiredMembers(st.reservations, now);
      NothingToDrop(st.reservations, now, {});
  }

  // ---- the API server ----

  datatype Reply = Done | NotFound | AlreadyExists | Conflict | Failed

  datatype Fate = Served | Refused | ReplyLost

  /** What happens around one call: the versions others write first, then the call's own fate. */
  datatype Turn = Turn(others: seq<Status>, fate: Fate, clock: int)

  /** When nothing more is scheduled, nobody interferes and every call is served. */
  function Head(turns: seq<Turn>): Turn {
    if turns == [] then Turn([], Served, 0) else turns[0]
  }

  function Rest(turns: seq<Turn>): seq<Turn> {
    if turns == [] then [] else turns[1..]
  }

  predicate AllServed(turns: seq<Turn>) {
    forall t :: t in turns ==> t.fate == Served
  }

  /** The number of turns in which others write. */
  function Disturbances(turns: seq<Turn>): nat {
    if turns == [] then 0 else (if turns[0].others != [] then 1 else 0) + Disturbances(turns[1..])
  }

  /** Every call is served, and others write in fewer turns than there are attempts. */
  predicate Calm(turns: seq<Turn>, budget: nat) {
    AllServed(turns) && Disturbances(turns) < budget
  }

  lemma TurnPasses(turns: seq<Turn>)
    ensures AllServed(turns) ==> Head(turns).fate == Served && AllServed(Rest(turns))
    ensures Disturbances(turns) == (if Head(turns).others != [] then 1 else 0) + Disturbances(Rest(turns))
  {
  }

  /** A reading that the clock gives in one of these turns, or after them. */
  ghost predicate ReadsClock(turns: seq<Turn>, idle: int, now: int) {
    now == idle || exists t :: t in turns && t.clock == now
  }

  /** One QuotaUsage object on the API server, as one client sees it. Version v is history[v - 1];
      an empty history means that the object does not exist yet. */
  class ApiServer {
    var history: seq<Status>
    var turns: seq<Turn>        // the environment's future behaviour, arbitrary
    const idle: int             // what the clock says when nothing more is scheduled, arbitrary
    ghost var writes: seq<nat>  // the versions this client wrote through UpdateStatus

    method NextTurn() returns (fate: Fate, clock: int)
      modifies this
      ensures fate == Head(old(turns)).fate && turns == Rest(old(turns))
      ensures clock == if old(turns) == [] then idle else old(turns)[0].clock
      ensures history == old(history) + Head(old(turns)).others && writes == old(writes)
    {
      if turns == [] {
        return Served, idle;
      }
      var turn := turns[0];
      turns := turns[1..];
      history := history + turn.others;
      return turn.fate, turn.clock;
    }

    method Now() returns (clock: int)
      modifies this
      ensures clock == (if old(turns) == [] then idle else old(turns)[0].clock) && turns == Rest(old(turns))
      ensures history == old(history) + Head(old(turns)).others && writes == old(writes)
    {
      var _, c := NextTurn();
      return c;
    }

    method Get() returns (reply: Reply, st: Status, version: nat)
      modifies this
      ensures turns == Rest(old(turns))
      ensures history == old(history) + Head(old(turns)).others && writes == old(writes)
      ensures reply == if Head(old(turns)).fate != Served then Failed else if history == [] then NotFound else Done
      ensures reply == Done ==> version == |history| && st == history[version - 1]
    {
      var fate, _ := NextTurn();
      if fate != Served {
        return Failed, EMPTY, 0;
      }
      if history == [] {
        return NotFound, EMPTY, 0;
      }
      return Done, history[|history| - 1], |history|;
    }

    /** Creation stores an empty status: the status subresource ignores what the caller sends. */
    method Create() returns (reply: Reply, version: nat)
      modifies this
      ensures turns == Rest(old(turns)) && writes == old(writes)
      ensures var seen, fate := old(history) + Head(old(turns)).others, Head(old(turns)).fate;
              && history == (if fate != Refused && seen == [] then [EMPTY] else seen)
              && reply == (if fate != Served then Failed else if seen == [] then Done else AlreadyExists)
      ensures reply == Done ==> version == 1
    {
      var fate, _ := NextTurn();
      if fate == Refused {
        return Failed, 0;
      }
      if history != [] {
        return if fate == Served then AlreadyExists else Failed, 0;
      }
      history := [EMPTY];
      return if fate == Served then Done else Failed, 1;
    }

    /** A conditional write: it takes effect only while the version read is still the current one. */
    method UpdateStatus(st: Status, version: nat) returns (reply: Reply)
      requires version <= |history|
      modifies this
      ensures turns == Rest(old(turns))
      ensures var seen, fate := old(history) + Head(old(turns)).others, Head(old(turns)).fate;
              var takes := fate != Refused && |seen| == version;
              && history == (if takes then seen + [st] else seen)
              && writes == (if takes then old(writes) + [version + 1] else old(writes))
              && reply == (if fate != Served then Failed else if takes then Done else Conflict)
    {
      var fate, _ := NextTurn();
      if fate == Refused {
        return Failed;
      }
      if |history| != version {
        return if fate == Served then Conflict else Failed;
      }
      history := history + [st];
      writes := writes + [version + 1];
      return if fate == Served then Done else Failed;
    }
  }

  /** The call acted once, atomically, on version at, which was current at some instant of the call:
      flag is what the mutation answered there, and the version after it is the mutation's image,
      unless there was nothing to write. */
  ghost predicate ActedOnce(
    m: Mutation, since: nat, history: seq<Status>, writes: seq<nat>, at: nat, now: int, flag: bool)
  {
    && since <= at <= |history| && 1 <= at
    && var (out, ok) := Mutate(m, history[at - 1], now);
    && flag == ok
    && if out == history[at - 1] then writes == []
       else at < |history| && history[at] == out && writes == [at + 1]
  }

  /** Whatever the outcome, at most one version is the call's own; it is the mutation's image of the version
      before it, which was current at some instant of the call, and differs from it. */
  ghost predicate AtMostOneEffect(m: Mutation, since: nat, history: seq<Status>, writes: seq<nat>) {
    writes == [] || exists at, now {:trigger Mutate(m, history[at - 1], now)} ::
      && since <= at < |history| && 1 <= at
      && writes == [at + 1]
      && history[at - 1] != history[at] == Mutate(m, history[at - 1], now).0
  }

  /** The version that the call left behind, having acted on version at. */
  function Left(history: seq<Status>, wrote: seq<nat>, at: nat): Status
    requires 1 <= at <= |history| && (wrote != [] ==> at < |history|)
  {
    if wrote == [] then history[at - 1] else history[at]
  }

  /** What came of one attempt: the call is over, has failed, or is to be tried again. */
  datatype Attempted = Over | Failure | Retry

  /** The ledger's current version; an empty one is created if there is none. A creation that comes second
      is to be tried again. */
  method GetOrCreate(api: ApiServer) returns (reply: Reply, st: Status, version: nat)
    modifies api
    ensures old(api.history) <= api.history && api.writes == old(api.writes)
    ensures forall t :: t in api.turns ==> t in old(api.turns)
    ensures reply in {Done, AlreadyExists, Failed}
    ensures reply == Done ==> version == |api.history| > 0 && st == api.history[version - 1]
    ensures AllServed(old(api.turns)) ==>
              && AllServed(api.turns) && reply != Failed
              && Disturbances(api.turns) <= Disturbances(old(api.turns))
              && (reply == AlreadyExists ==> Disturbances(api.turns) < Disturbances(old(api.turns)))
  {
    TurnPasses(api.turns);
    reply, st, version := api.Get();
    if reply == NotFound {
      TurnPasses(api.turns);
      reply, version := api.Create();
      st := EMPTY;
    }
  }

  /** Mutates what was read and writes it back, unless nothing changed; a write that comes second is to be
      tried again. The ghost results name the linearization point. */
  method MutateAndUpdate(api: ApiServer, m: Mutation, st: Status, version: nat)
    returns (outcome: Attempted, ok: bool, ghost now: int, ghost wrote: seq<nat>)
    requires version == |api.history| > 0 && st == api.history[version - 1]
    modifies api
    ensures old(api.history) <= api.history && api.writes == old(api.writes) + wrote
    ensures forall t :: t in api.turns ==> t in old(api.turns)
    ensures ok == Mutate(m, st, now).1 && ReadsClock(old(api.turns), api.idle, now)
    ensures wrote != [] ==> WroteImage(m, api.history, wrote, version, now)
    ensures outcome.Over? ==> (wrote == [] <==> Mutate(m, st, now).0 == st)
    ensures outcome.Retry? ==> wrote == []
    ensures AllServed(old(api.turns)) ==>
              && AllServed(api.turns) && !outcome.Failure?
              && Disturbances(api.turns) <= Disturbances(old(api.turns))
              && (outcome.Retry? ==> Disturbances(api.turns) < Disturbances(old(api.turns)))
  {
    ghost var seen := api.history;
    wrote := [];
    TurnPasses(api.turns);
    var clock := api.Now();
    now := clock;
    var (out, answer) := Mutate(m, st, clock);
    ok := answer;
    if out == st {
      return Over, ok, now, wrote;
    }
    TurnPasses(api.turns);
    var reply := api.UpdateStatus(out, version);
    assert api.history[version - 1] == st by {
      assert seen <= api.history && seen[version - 1] == st;
    }
    wrote := if api.writes == old(api.writes) then [] else [version + 1];
    outcome := if reply == Conflict then Retry else if reply == Failed then Failure else Over;
  }

  /** The one version written is the image of version at, and differs from it. */
  ghost predicate WroteImage(m: Mutation, history: seq<Status>, wrote: seq<nat>, at: nat, now: int) {
    && 1 <= at < |history| && wrote == [at + 1]
    && history[at - 1] != history[at] == Mutate(m, history[at - 1], now).0
  }

  /** One attempt. When every call is served it does not fail, and it is to be tried again only if others have
      written meanwhile. captured is the flag as the closure last set it. */
  method Attempt(api: ApiServer, m: Mutation, flag: bool)
    returns (outcome: Attempted, captured: bool, ghost at: nat, ghost now: int, ghost wrote: seq<nat>)
    modifies api
    ensures old(api.history) <= api.history && api.writes == old(api.writes) + wrote
    ensures forall t :: t in api.turns ==> t in old(api.turns)
    ensures outcome.Over? ==>
              && ActedOnce(m, old(|api.history|), api.history, wrote, at, now, captured)
              && ReadsClock(old(api.turns), api.idle, now)
    ensures outcome.Failure? ==> AtMostOneEffect(m, old(|api.history|), api.history, wrote)
    ensures outcome.Retry? ==> wrote == []
    ensures AllServed(old(api.turns)) ==>
              && AllServed(api.turns) && !outcome.Failure?
              && Disturbances(api.turns) <= Disturbances(old(api.turns))
              && (outcome.Retry? ==> Disturbances(api.turns) < Disturbances(old(api.turns)))
  {
    captured, at, now, wrote := flag, 0, 0, [];
    var reply, st, version := GetOrCreate(api);
    if reply != Done {
      return (if reply == Failed then Failure else Retry), captured, at, now, wrote;
    }
    ghost var seen := api.history;
    at := version;
    outcome, captured, now, wrote := MutateAndUpdate(api, m, st, version);
    assert api.history[at - 1] == st by {
      assert seen <= api.history && seen[at - 1] == st;
    }
  }

  /** Attempts, within the budget, until one ends the call. The call does not fail when every call to the API
      server is served and others write in fewer turns than there are attempts. */
  method Apply(api: ApiServer, m: Mutation, budget: nat)
    returns (failed: bool, captured: bool, ghost at: nat, ghost now: int, ghost wrote: seq<nat>)
    modifies api
    ensures old(api.history) <= api.history
    ensures api.writes == old(api.writes) + wrote
    ensures AtMostOneEffect(m, old(|api.history|), api.history, wrote)
    ensures !failed ==> ActedOnce(m, old(|api.history|), api.history, wrote, at, now, captured)
    ensures !failed ==> ReadsClock(old(api.turns), api.idle, now)
    ensures Calm(old(api.turns), budget) ==> !failed
  {
    captured, at, now, wrote := false, 0, 0, [];
    for attempt := 0 to budget
      invariant old(api.history) <= api.history && api.writes == old(api.writes) && wrote == []
      invariant forall t :: t in api.turns ==> t in old(api.turns)
      invariant AllServed(old(api.turns)) ==>
        AllServed(api.turns) && attempt + Disturbances(api.turns) <= Disturbances(old(api.turns))
    {
      var outcome;
      outcome, captured, at, now, wrote := Attempt(api, m, captured);
      if !outcome.Retry? {
        return outcome.Failure?, captured, at, now, wrote;
      }
    }
    failed := true;
  }

  /** Reserve: an error never carries a grant; a grant means that the key is reserved in the status
      the call left behind; a denial means that the limit was already reached. */
  method StoreReserve(api: ApiServer, key: string, limit: Int32, ttl: int, budget: nat)
    returns (allowed: bool, failed: bool, ghost at: nat, ghost now: int, ghost wrote: seq<nat>)
    modifies api
    ensures old(api.history) <= api.history
    ensures api.writes == old(api.writes) + wrote
    ensures AtMostOneEffect(MReserve(key, limit, ttl), old(|api.history|), api.history, wrote)
    ensures failed ==> !allowed
    ensures Calm(old(api.turns), budget) ==> !failed
    ensures !failed ==> ReadsClock(old(api.turns), api.idle, now)
    ensures !failed ==>
              && ActedOnce(MReserve(key, limit, ttl), old(|api.history|), api.history, wrote, at, now, allowed)
              && (allowed <==> Holds(api.history[at - 1], key, now) || Used(api.history[at - 1], now) < limit)
              && (wrote == [] <==> !allowed || Holds(api.history[at - 1], key, now))
              && (wrote != [] ==> ReservedBetween(api.history[at - 1], api.history[at], key, limit, now, ttl))
  {
    failed, allowed, at, now, wrote := Apply(api, MReserve(key, limit, ttl), budget);
    if failed {
      allowed := false;
    } else {
      MutationMeaning(MReserve(key, limit, ttl), api.history[at - 1], now);
    }
  }

  // ---- usage_reconciler.go ----

  datatype Listing = Listed(liveKeys: seq<string>) | ListFailed

  /** ReconcileCluster: the listing comes first; a failed one leaves the ledger alone. Otherwise the ledger
      comes to count the listed objects and to hold the reservations that none of them fulfils, and is
      written only if it did not already. */
  method ReconcileCluster(api: ApiServer, listing: Listing, budget: nat)
    returns (failed: bool, ghost at: nat, ghost now: int, ghost wrote: seq<nat>)
    modifies api
    ensures old(api.history) <= api.history
    ensures api.writes == old(api.writes) + wrote
    ensures listing.ListFailed? ==> failed && api.history == old(api.history) && wrote == []
    ensures listing.Listed? ==> AtMostOneEffect(MFold(listing.liveKeys), old(|api.history|), api.history, wrote)
    ensures listing.Listed? && Calm(old(api.turns), budget) ==> !failed
    ensures !failed ==>
              && ActedOnce(MFold(listing.liveKeys), old(|api.history|), api.history, wrote, at, now, false)
              && FoldedBetween(api.history[at - 1], Left(api.history, wrote, at), listing.liveKeys)
              && (wrote == [] <==>
                    && api.history[at - 1].confirmed == Wrap32(|listing.liveKeys|)
                    && forall r :: r in api.history[at - 1].reservations ==> r.key !in listing.liveKeys)
  {
    if listing.ListFailed? {
      return true, 0, 0, [];
    }
    var captured;
    failed, captured, at, now, wrote := Apply(api, MFold(listing.liveKeys), budget);
    if !failed {
      MutationMeaning(MFold(listing.liveKeys), api.history[at - 1], now);
    }
  }

  /** The ledger was swept: what it held unexpired is left, and it was written only if something had expired. */
  ghost predicate SweptOnce(since: nat, history: seq<Status>, wrote: seq<nat>, at: nat, now: int) {
    && ActedOnce(MSweep, since, history, wrote, at, now, false)
    && SweptBetween(history[at - 1], Left(history, wrote, at), now)
    && (wrote == [] <==> forall r :: r in history[at - 1].reservations ==> r.expiresAt > now)
  }

  /** SweepAll: one sweep per ledger in order; the first failure ends the round and later ledgers
      are not touched. */
  method SweepAll(apis: seq<ApiServer>, budget: nat)
    returns (failed: bool, swept: nat, ghost at: seq<nat>, ghost now: seq<int>, ghost wrote: seq<seq<nat>>)
    requires forall i, j :: 0 <= i < j < |apis| ==> apis[i] != apis[j]
    modifies apis
    ensures swept == |at| == |now| == |wrote| <= |apis|
    ensures failed <==> swept < |apis|
    ensures (forall i :: 0 <= i < |apis| ==> Calm(old(apis[i].turns), budget)) ==> !failed
    ensures forall i :: 0 <= i < swept ==>
              && SweptOnce(old(|apis[i].history|), apis[i].history, wrote[i], at[i], now[i])
              && ReadsClock(old(apis[i].turns), apis[i].idle, now[i])
    ensures forall i :: swept < i < |apis| ==> unchanged(apis[i])
  {
    swept, at, now, wrote := 0, [], [], [];
    while swept < |apis|
      invariant swept == |at| == |now| == |wrote| <= |apis|
      invariant forall i :: 0 <= i < swept ==>
        && SweptOnce(old(|apis[i].history|), apis[i].history, wrote[i], at[i], now[i])
        && ReadsClock(old(apis[i].turns), apis[i].idle, now[i])
      invariant forall i :: swept <= i < |apis| ==> unchanged(apis[i])
    {
      var failure, captured;
      ghost var a, t, w;
      failure, captured, a, t, w := Apply(apis[swept], MSweep, budget);
      if failure {
        return true, swept, at, now, wrote;
      }
      MutationMeaning(MSweep, apis[swept].history[a - 1], t);
      at, now, wrote := at + [a], now + [t], wrote + [w];
      swept := swept + 1;
    }
    failed := false;
  }
}
