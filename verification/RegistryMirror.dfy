/**
 The watcher that mirrors the quotas into the limits. remember and forget each run under two locks in
 turn, the watcher's for what it knows and the registry's for the limit, and the initial listing runs
 beside the reconciles; so other actors may act between the two.
 */
module RegistryMirror {
  import opened Accounting
  import opened KeysAndNames
  import opened LimitRegistry

  /** What the watcher reads of a ConsumptionQuota; an empty hash means not stamped yet. */
  datatype Quota = Quota(ref: ResourceRef, limit: Int32, deleting: bool)

  datatype Lookup = Missing | Unreadable | Found(quota: Quota)

  predicate Listable(quota: Quota) {
    quota.ref.identityHash != "" && !quota.deleting
  }

  /** A registry write which an actor owes since its first region. */
  datatype Write = SetLimit(cqRef: string, ref: ResourceRef, limit: Int32) | DropLimit(cqRef: string, ref: ResourceRef)

  /** known and limits are the source's maps. pending holds the write each actor owes, and last the limit
      each known quota was last remembered with. */
  datatype Mirror = Mirror(
    known: map<string, ResourceRef>, limits: map<ResourceRef, Int32>, pending: map<nat, Write>,
    last: map<string, Int32>)

  const NOTHING_KNOWN := Mirror(map[], map[], map[], map[])

  /** Remember and Forget are the first regions of the methods of that name, Finish the second of either. */
  datatype Step =
    | Remember(p: nat, cqRef: string, quota: Quota)
    | Forget(p: nat, cqRef: string)
    | Finish(p: nat)

  predicate Enabled(m: Mirror, step: Step) {
    match step
    case Remember(p, _, quota) => p !in m.pending && Listable(quota)
    case Forget(p, _) => p !in m.pending
    case Finish(p) => p in m.pending
  }

  function Do(m: Mirror, step: Step): Mirror
    requires Enabled(m, step)
  {
    match step
    case Remember(p, c, quota) =>
      m.(known := m.known[c := quota.ref], last := m.last[c := quota.limit],
         pending := m.pending[p := SetLimit(c, quota.ref, quota.limit)])
    case Forget(p, c) =>
      m.(known := m.known - {c}, last := m.last - {c},
         pending := if c in m.known then m.pending[p := DropLimit(c, m.known[c])] else m.pending)
    case Finish(p) =>
      var w := m.pending[p];
      m.(pending := m.pending - {p},
         limits := if w.SetLimit? then m.limits[w.ref := w.limit] else m.limits - {w.ref})
  }

  ghost predicate Run(m: Mirror, steps: seq<Step>, end: Mirror)
    decreases |steps|
  {
    if steps == [] then m == end
    else Enabled(m, steps[0]) && Run(Do(m, steps[0]), steps[1..], end)
  }

  /** The steps of actor p, in order. */
  function Own(steps: seq<Step>, p: nat): seq<Step> {
    if steps == [] then []
    else if steps[0].p == p then [steps[0]] + Own(steps[1..], p)
    else Own(steps[1..], p)
  }

  lemma {:induction false} RunsOn(a: Mirror, x: seq<Step>, b: Mirror, y: seq<Step>, c: Mirror)
    requires Run(a, x, b) && Run(b, y, c)
    ensures Run(a, x + y, c)
    decreases |x|
  {
    if x == [] {
      assert x + y == y;
    } else {
      RunsOn(Do(a, x[0]), x[1..], b, y, c);
      assert (x + y)[1..] == x[1..] + y;
    }
  }

  lemma OneStep(m: Mirror, step: Step)
    requires Enabled(m, step)
    ensures Run(m, [step], Do(m, step))
    ensures forall p :: Own([step], p) == if step.p == p then [step] else []
  {
    assert [step][1..] == [];
  }

  lemma {:induction false} OwnOfBoth(x: seq<Step>, y: seq<Step>, p: nat)
    ensures Own(x + y, p) == Own(x, p) + Own(y, p)
    decreases |x|
  {
    if x == [] {
      assert x + y == y;
    } else {
      OwnOfBoth(x[1..], y, p);
      assert (x + y)[1..] == x[1..] + y;
    }
  }

  /** What p owes is p's own business. */
  lemma {:induction false} OthersLeave(m: Mirror, steps: seq<Step>, end: Mirror, p: nat)
    requires Run(m, steps, end) && Own(steps, p) == []
    ensures p in end.pending <==> p in m.pending
    ensures p in m.pending ==> end.pending[p] == m.pending[p]
    decreases |steps|
  {
    if steps != [] {
      OthersLeave(Do(m, steps[0]), steps[1..], end, p);
    }
  }

  // ---- what an actor does ----

  function RememberSteps(p: nat, c: string, quota: Quota): seq<Step> {
    [Remember(p, c, quota), Finish(p)]
  }

  /** Forgetting a quota that is not known ends after the first region. */
  function ForgetSteps(p: nat, c: string, known: bool): seq<Step> {
    [Forget(p, c)] + if known then [Finish(p)] else []
  }

  function ReconcileSteps(p: nat, c: string, seen: Lookup, known: bool): seq<Step> {
    match seen
    case Missing => ForgetSteps(p, c, known)
    case Unreadable => []
    case Found(quota) =>
      if quota.deleting then ForgetSteps(p, c, known)
      else if quota.ref.identityHash == "" then []
      else RememberSteps(p, c, quota)
  }

  type Item = (string, Quota)

  /** One attempt to list: nothing when the clients could not be built, else the shards, each listed or
      not. */
  type Attempt = Option<seq<Option<seq<Item>>>>

  /** A quota that is not stamped, or on its way out, is skipped. */
  function ListedSteps(p: nat, item: Item): seq<Step> {
    if Listable(item.1) then RememberSteps(p, item.0, item.1) else []
  }

  function RememberAll(p: nat, items: seq<Item>): seq<Step> {
    if items == [] then [] else ListedSteps(p, items[0]) + RememberAll(p, items[1..])
  }

  /** What the shards before the first that cannot be listed hold. */
  function Listed(shards: seq<Option<seq<Item>>>): seq<Item> {
    if shards == [] || shards[0].None? then [] else shards[0].value + Listed(shards[1..])
  }

  predicate Complete(attempt: Attempt) {
    attempt.Some? && forall shard :: shard in attempt.value ==> shard.Some?
  }

  function Tried(attempt: Attempt): seq<Item> {
    if attempt.None? then [] else Listed(attempt.value)
  }

  /** What the attempts list, up to the first complete one; an attempt that fails half way counts. */
  function Gathered(attempts: seq<Attempt>): seq<Item> {
    if attempts == [] then []
    else Tried(attempts[0]) + if Complete(attempts[0]) then [] else Gathered(attempts[1..])
  }

  /** What is remembered are the listed quotas that are stamped and not being deleted. */
  lemma {:induction false} RememberAllMeaning(p: nat, items: seq<Item>, c: string, quota: Quota)
    ensures Remember(p, c, quota) in RememberAll(p, items)
            <==> (c, quota) in items && quota.ref.identityHash != "" && !quota.deleting
  {
    if items != [] {
      RememberAllMeaning(p, items[1..], c, quota);
      assert items == [items[0]] + items[1..];
    }
  }

  /** What a listing yields is what the shards before the first failure hold. */
  lemma {:induction false} ListedMeaning(shards: seq<Option<seq<Item>>>, item: Item)
    ensures item in Listed(shards)
            <==> exists i :: 0 <= i < |shards| && (forall j :: 0 <= j <= i ==> shards[j].Some?) && item in shards[i].value
  {
    if shards != [] && shards[0].Some? {
      var rest := shards[1..];
      ListedMeaning(rest, item);
      assert forall j :: 0 <= j < |rest| ==> rest[j] == shards[j + 1];
      if item in Listed(rest) {
        var i :| 0 <= i < |rest| && (forall j :: 0 <= j <= i ==> rest[j].Some?) && item in rest[i].value;
        assert forall j :: 0 < j <= i + 1 ==> shards[j] == rest[j - 1];
        assert item in shards[i + 1].value;
      }
      if i :| 0 < i < |shards| && (forall j :: 0 <= j <= i ==> shards[j].Some?) && item in shards[i].value {
        assert item in rest[i - 1].value;
      }
    }
  }

  /** What several attempts yield is what each yields, up to the first complete one. */
  lemma {:induction false} GatheredMeaning(attempts: seq<Attempt>, item: Item)
    ensures item in Gathered(attempts)
            <==> exists i :: 0 <= i < |attempts| && (forall j :: 0 <= j < i ==> !Complete(attempts[j]))
                             && item in Tried(attempts[i])
  {
    if attempts != [] {
      var rest := attempts[1..];
      GatheredMeaning(rest, item);
      assert forall j :: 0 <= j < |rest| ==> rest[j] == attempts[j + 1];
      if !Complete(attempts[0]) && item in Gathered(rest) {
        var i :| 0 <= i < |rest| && (forall j :: 0 <= j < i ==> !Complete(rest[j])) && item in Tried(rest[i]);
        assert forall j :: 0 < j < i + 1 ==> attempts[j] == rest[j - 1];
        assert item in Tried(attempts[i + 1]);
      }
      if i :| 0 < i < |attempts| && (forall j :: 0 <= j < i ==> !Complete(attempts[j])) && item in Tried(attempts[i]) {
        assert item in Tried(rest[i - 1]);
      }
    }
  }

  lemma {:induction false} RememberBoth(p: nat, x: seq<Item>, y: seq<Item>)
    ensures RememberAll(p, x + y) == RememberAll(p, x) + RememberAll(p, y)
  {
    if x == [] {
      assert x + y == y;
    } else {
      var one, tail := ListedSteps(p, x[0]), RememberAll(p, x[1..]);
      RememberBoth(p, x[1..], y);
      assert (x + y)[1..] == x[1..] + y && (x + y)[0] == x[0];
      assert one + (tail + RememberAll(p, y)) == (one + tail) + RememberAll(p, y);
    }
  }

  // ---- the watcher ----

  class RegistryWatcher {
    const reg: Registry
    var known: map<string, ResourceRef>
    var pending: map<nat, Write>  // bookkeeping: who stands between the two regions
    var last: map<string, Int32>  // bookkeeping: what each quota was last remembered with
    var turns: seq<seq<Step>>     // what the other actors will do, arbitrary

    function View(): Mirror
      reads this, reg
    {
      Mirror(known, reg.limits, pending, last)
    }

    constructor (reg: Registry)
      ensures this.reg == reg && known == map[] && pending == map[] && last == map[]
    {
      this.reg := reg;
      known, pending, last, turns := map[], map[], map[], [];
    }

    /** The other actors take their turn. */
    method Others(p: nat) returns (ghost trace: seq<Step>)
      modifies this, reg
      ensures Run(old(View()), trace, View()) && Own(trace, p) == []
      ensures old(turns) == [] ==> turns == [] && View() == old(View())
    {
      ghost var start := View();
      trace := [];
      if turns == [] {
        return;
      }
      var turn := turns[0];
      turns := turns[1..];
      for i := 0 to |turn|
        invariant Run(start, trace, View()) && Own(trace, p) == []
      {
        var step, m := turn[i], View();
        if step.p != p && Enabled(m, step) {
          var next := Do(m, step);
          known, pending, last, reg.limits := next.known, next.pending, next.last, next.limits;
          OneStep(m, step);
          RunsOn(start, trace, m, [step], next);
          OwnOfBoth(trace, [step], p);
          trace := trace + [step];
        }
      }
    }

    /** Two regions, with the others free to act in between. */
    method Remember(p: nat, cqRef: string, quota: Quota) returns (ghost trace: seq<Step>)
      requires p !in pending && Listable(quota)
      modifies this, reg
      ensures Run(old(View()), trace, View()) && p !in pending
      ensures Own(trace, p) == RememberSteps(p, cqRef, quota)
      ensures old(turns) == [] ==>
                && turns == [] && known == old(known)[cqRef := quota.ref]
                && reg.limits == old(reg.limits)[quota.ref := quota.limit]
    {
      ghost var start, step := View(), Step.Remember(p, cqRef, quota);
      known := known[cqRef := quota.ref];
      last, pending := last[cqRef := quota.limit], pending[p := SetLimit(cqRef, quota.ref, quota.limit)];
      ghost var mid := View();
      ghost var between := Others(p);
      ghost var late := View();
      OthersLeave(mid, between, late, p);
      reg.Set(quota.ref, quota.limit);
      pending := pending - {p};
      trace := [step] + between + [Finish(p)];
      Sandwich(start, step, mid, between, late, View());
    }

    method Forget(p: nat, cqRef: string) returns (ghost trace: seq<Step>)
      requires p !in pending
      modifies this, reg
      ensures Run(old(View()), trace, View()) && p !in pending
      ensures Own(trace, p) == ForgetSteps(p, cqRef, cqRef in old(known))
      ensures old(turns) == [] ==>
                && turns == [] && known == old(known) - {cqRef}
                && reg.limits == if cqRef in old(known) then old(reg.limits) - {old(known)[cqRef]} else old(reg.limits)
    {
      ghost var start, step := View(), Step.Forget(p, cqRef);
      var ok := cqRef in known;
      var ref := if ok then known[cqRef] else ResourceRef("", "", "");
      known := known - {cqRef};
      last, pending := last - {cqRef}, if ok then pending[p := DropLimit(cqRef, ref)] else pending;
      OneStep(start, step);
      if !ok {
        return [step];
      }
      ghost var mid := View();
      ghost var between := Others(p);
      ghost var late := View();
      OthersLeave(mid, between, late, p);
      reg.Delete(ref);
      pending := pending - {p};
      trace := [step] + between + [Finish(p)];
      Sandwich(start, step, mid, between, late, View());
    }

    /** Mirrors one quota; only an unreadable one is an error. With nobody else at work, a quota that is gone or
        being deleted ends forgotten, its limit with it; a live one that is stamped ends known, with its limit;
        any other is left alone. */
    method Reconcile(p: nat, cqRef: string, seen: Lookup) returns (failed: bool, ghost trace: seq<Step>)
      requires p !in pending
      modifies this, reg
      ensures failed <==> seen.Unreadable?
      ensures Run(old(View()), trace, View()) && p !in pending
      ensures Own(trace, p) == ReconcileSteps(p, cqRef, seen, cqRef in old(known))
      ensures old(turns) == [] && (seen.Missing? || (seen.Found? && seen.quota.deleting)) ==>
                && known == old(known) - {cqRef}
                && reg.limits == if cqRef in old(known) then old(reg.limits) - {old(known)[cqRef]} else old(reg.limits)
      ensures old(turns) == [] && seen.Found? && !seen.quota.deleting && seen.quota.ref.identityHash != "" ==>
                && known == old(known)[cqRef := seen.quota.ref]
                && reg.limits == old(reg.limits)[seen.quota.ref := seen.quota.limit]
      ensures seen.Unreadable? || (seen.Found? && !seen.quota.deleting && seen.quota.ref.identityHash == "") ==>
                known == old(known) && reg.limits == old(reg.limits)
    {
      failed, trace := false, [];
      match seen {
        case Unreadable =>
          failed := true;
        case Missing =>
          trace := Forget(p, cqRef);
        case Found(quota) =>
          if quota.deleting {
            trace := Forget(p, cqRef);
          } else if quota.ref.identityHash != "" {
            trace := Remember(p, cqRef, quota);
          }
      }
    }

    /** One shard's quotas, in order, skipping those not stamped or on their way out. */
    method RememberListed(p: nat, items: seq<Item>) returns (ghost trace: seq<Step>)
      requires p !in pending
      modifies this, reg
      ensures Run(old(View()), trace, View()) && p !in pending
      ensures Own(trace, p) == RememberAll(p, items)
    {
      ghost var start := View();
      trace := [];
      for i := 0 to |items|
        invariant Remembers(start, trace, View(), p, items[..i]) && p !in pending
      {
        ghost var m, more := View(), [];
        if Listable(items[i].1) {
          more := Remember(p, items[i].0, items[i].1);
        }
        RememberOne(p, items[i]);
        RemembersOn(start, trace, m, more, View(), p, items[..i], [items[i]]);
        assert items[..i + 1] == items[..i] + [items[i]];
        trace := trace + more;
      }
      assert items[..|items|] == items;
    }

    /** One attempt of PopulateRegistry: the shards in order, up to the first that cannot be listed.
        What earlier shards held stays remembered. */
    method TryPopulate(p: nat, attempt: Attempt) returns (ready: bool, ghost trace: seq<Step>)
      requires p !in pending
      modifies this, reg
      ensures ready <==> Complete(attempt)
      ensures Run(old(View()), trace, View()) && p !in pending
      ensures Own(trace, p) == RememberAll(p, Tried(attempt))
    {
      trace := [];
      if attempt.None? {
        return false, trace;
      }
      ghost var start, done := View(), [];
      var shards := attempt.value;
      for i := 0 to |shards|
        invariant Remembers(start, trace, View(), p, done) && p !in pending
        invariant forall j :: 0 <= j < i ==> shards[j].Some?
        invariant done + Listed(shards[i..]) == Listed(shards)
      {
        if shards[i].None? {
          assert shards[i] in shards && done == Listed(shards);
          return false, trace;
        }
        ghost var m := View();
        ghost var more := RememberListed(p, shards[i].value);
        RemembersOn(start, trace, m, more, View(), p, done, shards[i].value);
        ListedFrom(shards, i, done);
        trace, done := trace + more, done + shards[i].value;
      }
      assert done == Listed(shards);
      ready := true;
    }

    /** PopulateRegistry: attempt after attempt, until one is complete or the time is up. */
    method Populate(p: nat, attempts: seq<Attempt>) returns (failed: bool, ghost trace: seq<Step>)
      requires p !in pending
      modifies this, reg
      ensures failed <==> forall attempt :: attempt in attempts ==> !Complete(attempt)
      ensures Run(old(View()), trace, View()) && p !in pending
      ensures Own(trace, p) == RememberAll(p, Gathered(attempts))
    {
      ghost var start, done := View(), [];
      trace := [];
      for i := 0 to |attempts|
        invariant Remembers(start, trace, View(), p, done) && p !in pending
        invariant forall j :: 0 <= j < i ==> !Complete(attempts[j])
        invariant done + Gathered(attempts[i..]) == Gathered(attempts)
      {
        ghost var m := View();
        var ready;
        ghost var more;
        ready, more := TryPopulate(p, attempts[i]);
        RemembersOn(start, trace, m, more, View(), p, done, Tried(attempts[i]));
        GatheredFrom(attempts, i, done);
        trace, done := trace + more, done + Tried(attempts[i]);
        if ready {
          assert attempts[i] in attempts && done == Gathered(attempts);
          return false, trace;
        }
      }
      assert done == Gathered(attempts);
      failed := true;
    }
  }

  // ---- the traces of the loops ----

  /** On this run p has remembered these items, and done nothing else. */
  ghost predicate Remembers(a: Mirror, trace: seq<Step>, b: Mirror, p: nat, items: seq<Item>) {
    Run(a, trace, b) && Own(trace, p) == RememberAll(p, items)
  }

  lemma RemembersOn(a: Mirror, x: seq<Step>, b: Mirror, y: seq<Step>, c: Mirror, p: nat, few: seq<Item>, more: seq<Item>)
    requires Remembers(a, x, b, p, few) && Remembers(b, y, c, p, more)
    ensures Remembers(a, x + y, c, p, few + more)
  {
    RunsOn(a, x, b, y, c);
    OwnOfBoth(x, y, p);
    RememberBoth(p, few, more);
  }

  lemma RememberOne(p: nat, item: Item)
    ensures RememberAll(p, [item]) == ListedSteps(p, item)
  {
    assert [item][1..] == [];
  }

  lemma ListedFrom(shards: seq<Option<seq<Item>>>, i: nat, done: seq<Item>)
    requires i < |shards| && shards[i].Some?
    ensures done + Listed(shards[i..]) == done + shards[i].value + Listed(shards[i + 1..])
  {
    assert shards[i..][1..] == shards[i + 1..];
  }

  lemma GatheredFrom(attempts: seq<Attempt>, i: nat, done: seq<Item>)
    requires i < |attempts|
    ensures Complete(attempts[i]) ==> done + Gathered(attempts[i..]) == done + Tried(attempts[i])
    ensures !Complete(attempts[i]) ==>
              done + Gathered(attempts[i..]) == done + Tried(attempts[i]) + Gathered(attempts[i + 1..])
  {
    var rest := attempts[i..];
    assert rest[0] == attempts[i] && rest[1..] == attempts[i + 1..];
    if Complete(attempts[i]) {
      assert Gathered(rest) == Tried(attempts[i]) + [];
    } else {
      assert Gathered(rest) == Tried(attempts[i]) + Gathered(attempts[i + 1..]);
    }
  }

  /** A first region, whatever others do meanwhile, and the second region. */
  lemma Sandwich(a: Mirror, step: Step, b: Mirror, between: seq<Step>, c: Mirror, d: Mirror)
    requires Enabled(a, step) && Do(a, step) == b && Run(b, between, c) && Own(between, step.p) == []
    requires Enabled(c, Finish(step.p)) && Do(c, Finish(step.p)) == d
    ensures Run(a, [step] + between + [Finish(step.p)], d)
    ensures Own([step] + between + [Finish(step.p)], step.p) == [step, Finish(step.p)]
  {
    OneStep(a, step);
    OneStep(c, Finish(step.p));
    RunsOn(a, [step], b, between, c);
    RunsOn(a, [step] + between, c, [Finish(step.p)], d);
    OwnOfBoth([step], between, step.p);
    OwnOfBoth([step] + between, [Finish(step.p)], step.p);
  }
}
