/**
 When the limits mirror the known quotas, with any number of actors between their two regions.
 */
module MirrorSafety {
  import opened Accounting
  import opened KeysAndNames
  import opened RegistryMirror

  /** The registry is exactly reference to last limit over the known quotas. */
  ghost predicate Mirrors(m: Mirror) {
    && m.known.Keys == m.last.Keys
    && (forall c :: c in m.known ==> Stored(m, m.known[c]) == Some(m.last[c]))
    && (forall ref :: ref in m.limits ==> exists c :: c in m.known && m.known[c] == ref)
  }

  function Stored(m: Mirror, ref: ResourceRef): Option<Int32> {
    if ref in m.limits then Some(m.limits[ref]) else None
  }

  // ---- the setting ----

  /** home gives the one reference each quota governs for good. */
  ghost predicate StaysHome(home: map<string, ResourceRef>, step: Step) {
    match step
    case Remember(_, c, quota) => c in home && quota.ref == home[c]
    case Forget(_, c) => c in home
    case Finish(_) => true
  }

  /** No two quotas govern the same reference. */
  ghost predicate OneHomeEach(home: map<string, ResourceRef>) {
    forall c, d :: c in home && d in home && home[c] == home[d] ==> c == d
  }

  ghost predicate AtHome(m: Mirror, home: map<string, ResourceRef>) {
    && m.known.Keys == m.last.Keys <= home.Keys
    && (forall c :: c in m.known ==> m.known[c] == home[c])
    && (forall p :: p in m.pending ==> m.pending[p].cqRef in home && m.pending[p].ref == home[m.pending[p].cqRef])
    && (forall ref :: ref in m.limits ==> exists c :: c in home && home[c] == ref)
  }

  /** The limit quota c should end up with, the one a write would leave, and the one a first region asks
      for. */
  function Want(m: Mirror, c: string): Option<Int32> {
    if c in m.last then Some(m.last[c]) else None
  }

  function Leaves(w: Write): Option<Int32> {
    if w.SetLimit? then Some(w.limit) else None
  }

  function Asks(step: Step): Option<Int32>
    requires !step.Finish?
  {
    if step.Remember? then Some(step.quota.limit) else None
  }

  ghost predicate Owes(m: Mirror, p: nat, c: string) {
    p in m.pending && m.pending[p].cqRef == c
  }

  /** Nobody stands between two regions on c with a different limit in hand. */
  ghost predicate Apart(m: Mirror, step: Step) {
    !step.Finish? ==> forall p :: Owes(m, p, step.cqRef) ==> Leaves(m.pending[p]) == Asks(step)
  }

  /** Every write still owed leaves its quota what it should end up with, and a quota nobody owes a write
      has that already. */
  ghost predicate Agrees(m: Mirror, home: map<string, ResourceRef>) {
    && (forall p :: p in m.pending ==> Leaves(m.pending[p]) == Want(m, m.pending[p].cqRef))
    && (forall c :: c in home && (forall p :: !Owes(m, p, c)) ==> Stored(m, home[c]) == Want(m, c))
  }

  // ---- steps ----

  lemma HomeStep(m: Mirror, home: map<string, ResourceRef>, step: Step)
    requires AtHome(m, home) && Enabled(m, step) && StaysHome(home, step)
    ensures AtHome(Do(m, step), home)
  {
  }

  lemma FinishRestsRightly(m: Mirror, home: map<string, ResourceRef>, p: nat, c: string)
    requires OneHomeEach(home) && AtHome(m, home) && Agrees(m, home) && p in m.pending
    requires c in home && forall q :: !Owes(Do(m, Finish(p)), q, c)
    ensures Stored(Do(m, Finish(p)), home[c]) == Want(Do(m, Finish(p)), c)
  {
    var m', w := Do(m, Finish(p)), m.pending[p];
    if c != w.cqRef {
      forall q ensures !Owes(m, q, c) {
        assert !Owes(m', q, c);
      }
      assert home[c] != w.ref;
    }
  }

  /** A write that is owed and agrees brings its quota where it should be. */
  lemma FinishAgrees(m: Mirror, home: map<string, ResourceRef>, p: nat)
    requires OneHomeEach(home) && AtHome(m, home) && Agrees(m, home) && p in m.pending
    ensures Agrees(Do(m, Finish(p)), home)
  {
    var m' := Do(m, Finish(p));
    forall c | c in home && (forall q :: !Owes(m', q, c)) ensures Stored(m', home[c]) == Want(m', c) {
      FinishRestsRightly(m, home, p, c);
    }
  }

  /** A first region keeps everybody's reference and what the others owe. */
  lemma FirstRegion(m: Mirror, step: Step)
    requires Enabled(m, step) && !step.Finish?
    ensures var m' := Do(m, step);
            && Want(m', step.cqRef) == Asks(step)
            && (forall d :: d != step.cqRef ==> Want(m', d) == Want(m, d))
            && m'.limits == m.limits
            && (forall p :: p in m.pending ==> p in m'.pending && m'.pending[p] == m.pending[p])
            && (forall p :: p in m'.pending && p !in m.pending ==>
                  p == step.p && m'.pending[p].cqRef == step.cqRef && Leaves(m'.pending[p]) == Asks(step))
            && (step.p in m'.pending || (step.Forget? && step.cqRef !in m.known))
  {
  }

  lemma ApartOwesRightly(m: Mirror, home: map<string, ResourceRef>, step: Step, p: nat)
    requires Agrees(m, home) && Apart(m, step) && Enabled(m, step) && !step.Finish?
    requires p in Do(m, step).pending
    ensures var m' := Do(m, step); Leaves(m'.pending[p]) == Want(m', m'.pending[p].cqRef)
  {
    FirstRegion(m, step);
    if p in m.pending && m.pending[p].cqRef == step.cqRef {
      assert Owes(m, p, step.cqRef);
    }
  }

  lemma ApartRestsRightly(m: Mirror, home: map<string, ResourceRef>, step: Step, d: string)
    requires AtHome(m, home) && Agrees(m, home) && Enabled(m, step) && !step.Finish?
    requires d in home && forall p :: !Owes(Do(m, step), p, d)
    ensures Stored(Do(m, step), home[d]) == Want(Do(m, step), d)
  {
    FirstRegion(m, step);
    forall p ensures !Owes(m, p, d) {
      assert !Owes(Do(m, step), p, d);
    }
    assert !Owes(Do(m, step), step.p, d);
  }

  lemma ApartAgrees(m: Mirror, home: map<string, ResourceRef>, step: Step)
    requires AtHome(m, home) && Agrees(m, home) && Apart(m, step)
    requires Enabled(m, step) && StaysHome(home, step) && !step.Finish?
    ensures Agrees(Do(m, step), home)
  {
    forall p | p in Do(m, step).pending
      ensures Leaves(Do(m, step).pending[p]) == Want(Do(m, step), Do(m, step).pending[p].cqRef)
    {
      ApartOwesRightly(m, home, step, p);
    }
    forall d | d in home && (forall p :: !Owes(Do(m, step), p, d))
      ensures Stored(Do(m, step), home[d]) == Want(Do(m, step), d)
    {
      ApartRestsRightly(m, home, step, d);
    }
  }

  /** A first region keeps agreement exactly when it is apart. */
  lemma FirstRegionAgrees(m: Mirror, home: map<string, ResourceRef>, step: Step)
    requires AtHome(m, home) && Agrees(m, home)
    requires Enabled(m, step) && StaysHome(home, step) && !step.Finish?
    ensures Agrees(Do(m, step), home) <==> Apart(m, step)
  {
    var m' := Do(m, step);
    if Agrees(m', home) {
      FirstRegion(m, step);
      forall p | Owes(m, p, step.cqRef) ensures Leaves(m.pending[p]) == Asks(step) {
        assert p in m'.pending;
      }
    }
    if Apart(m, step) {
      ApartAgrees(m, home, step);
    }
  }

  // ---- in any order, for any quotas ----

  /** v is what the known quotas want under ref: the last limit of each of them there, or nothing when there
      is none. */
  ghost predicate Fits(m: Mirror, ref: ResourceRef, v: Option<Int32>) {
    && (v.Some? ==> exists c :: c in m.known && m.known[c] == ref)
    && (forall c :: c in m.known && c in m.last && m.known[c] == ref ==> v == Some(m.last[c]))
  }

  ghost predicate Awaited(m: Mirror, ref: ResourceRef) {
    exists p :: p in m.pending && m.pending[p].ref == ref
  }

  /** Every write still owed fits, and so does what is stored where none is owed. */
  ghost predicate Converges(m: Mirror) {
    && m.known.Keys == m.last.Keys
    && (forall p :: p in m.pending ==> Fits(m, m.pending[p].ref, Leaves(m.pending[p])))
    && (forall ref :: Awaited(m, ref) || Fits(m, ref, Stored(m, ref)))
  }

  lemma ConvergesAtRest(m: Mirror)
    requires m.pending == map[]
    ensures Converges(m) <==> Mirrors(m)
  {
    if Converges(m) {
      forall c | c in m.known ensures Stored(m, m.known[c]) == Some(m.last[c]) {
        assert !Awaited(m, m.known[c]);
      }
      forall ref | ref in m.limits ensures exists c :: c in m.known && m.known[c] == ref {
        assert !Awaited(m, ref) && Stored(m, ref).Some?;
      }
    }
    if Mirrors(m) {
      forall ref ensures Fits(m, ref, Stored(m, ref)) {
      }
    }
  }

  lemma FinishConverges(m: Mirror, p: nat)
    requires Converges(m) && p in m.pending
    ensures Converges(Do(m, Finish(p)))
  {
    var m', w := Do(m, Finish(p)), m.pending[p];
    forall ref ensures Awaited(m', ref) || Fits(m', ref, Stored(m', ref)) {
      if ref == w.ref {
        assert Stored(m', ref) == Leaves(w) && Fits(m, ref, Leaves(w));
      } else if Awaited(m, ref) {
        var q :| q in m.pending && m.pending[q].ref == ref;
        assert q in m'.pending && m'.pending[q].ref == ref;
      } else {
        assert Fits(m, ref, Stored(m, ref));
      }
    }
  }

  /** Only second regions, until nobody owes a write. */
  ghost predicate Drains(m: Mirror, steps: seq<Step>, end: Mirror) {
    && Run(m, steps, end) && end.pending == map[]
    && forall step :: step in steps ==> step.Finish?
  }

  lemma {:induction false} DrainConverges(m: Mirror, steps: seq<Step>, end: Mirror)
    requires Converges(m) && Drains(m, steps, end)
    ensures Mirrors(end)
    decreases |steps|
  {
    if steps == [] {
      ConvergesAtRest(m);
    } else {
      assert steps[0] in steps;
      assert forall step :: step in steps[1..] ==> step in steps;
      FinishConverges(m, steps[0].p);
      DrainConverges(Do(m, steps[0]), steps[1..], end);
    }
  }

  /** All but some of the writes owed, in some order. */
  lemma {:induction false} DrainAllBut(m: Mirror, keep: set<nat>) returns (steps: seq<Step>, end: Mirror)
    requires keep <= m.pending.Keys
    ensures Run(m, steps, end) && (forall step :: step in steps ==> step.Finish?)
    ensures end.known == m.known && end.last == m.last
    ensures end.pending.Keys == keep && forall p :: p in keep ==> end.pending[p] == m.pending[p]
    ensures forall ref :: (forall p :: p in m.pending && p !in keep ==> m.pending[p].ref != ref) ==>
              Stored(end, ref) == Stored(m, ref)
    decreases m.pending
  {
    if m.pending.Keys == keep {
      return [], m;
    }
    var p :| p in m.pending && p !in keep;
    var m1 := Do(m, Finish(p));
    var rest;
    rest, end := DrainAllBut(m1, keep);
    steps := [Finish(p)] + rest;
    assert steps[1..] == rest;
    forall ref | forall q :: q in m.pending && q !in keep ==> m.pending[q].ref != ref
      ensures Stored(end, ref) == Stored(m, ref)
    {
      assert m.pending[p].ref != ref;
      assert forall q :: q in m1.pending && q !in keep ==> m1.pending[q].ref != ref;
    }
  }

  lemma {:induction false} DrainOn(m: Mirror, steps: seq<Step>, mid: Mirror, p: nat, end: Mirror)
    requires Run(m, steps, mid) && (forall step :: step in steps ==> step.Finish?)
    requires mid.pending.Keys == {p} && end == Do(mid, Finish(p))
    ensures Drains(m, steps + [Finish(p)], end)
  {
    OneStep(mid, Finish(p));
    RunsOn(m, steps, mid, [Finish(p)], end);
    assert end.pending.Keys == {};
  }

  lemma WrongAtRest(m: Mirror, end: Mirror, ref: ResourceRef)
    requires end.known == m.known && end.last == m.last && end.pending == map[]
    requires !Fits(m, ref, Stored(end, ref))
    ensures !Mirrors(end)
  {
    assert !Fits(end, ref, Stored(end, ref)) && !Awaited(end, ref);
    ConvergesAtRest(end);
  }

  /** If some write owed would leave the wrong limit, finishing it last leaves it. */
  lemma BadWriteLast(m: Mirror, p: nat) returns (steps: seq<Step>, end: Mirror)
    requires p in m.pending && !Fits(m, m.pending[p].ref, Leaves(m.pending[p]))
    ensures Drains(m, steps, end) && !Mirrors(end)
  {
    var most, mid := DrainAllBut(m, {p});
    end := Do(mid, Finish(p));
    DrainOn(m, most, mid, p, end);
    steps := most + [Finish(p)];
    assert Stored(end, m.pending[p].ref) == Leaves(m.pending[p]);
    WrongAtRest(m, end, m.pending[p].ref);
  }

  /** If what is stored where nobody owes a write is wrong, it stays. */
  lemma BadLimitStays(m: Mirror, ref: ResourceRef) returns (steps: seq<Step>, end: Mirror)
    requires !Awaited(m, ref) && !Fits(m, ref, Stored(m, ref))
    ensures Drains(m, steps, end) && !Mirrors(end)
  {
    steps, end := DrainAllBut(m, {});
    assert forall p :: p in m.pending ==> m.pending[p].ref != ref;
    assert end.pending == map[];
    WrongAtRest(m, end, ref);
  }

  /** For any quotas, shared or moved, and any calls that overlap: however the second regions still to come
      are ordered, the registry ends up mirroring the known quotas exactly when each of those writes, and
      each limit where none is owed, fits what they want there. */
  lemma MirrorsExactlyWhenConverging(m: Mirror)
    ensures Converges(m) <==> forall steps, end :: Drains(m, steps, end) ==> Mirrors(end)
  {
    if Converges(m) {
      forall steps, end | Drains(m, steps, end) ensures Mirrors(end) {
        DrainConverges(m, steps, end);
      }
    } else if p :| p in m.pending && !Fits(m, m.pending[p].ref, Leaves(m.pending[p])) {
      var steps, end := BadWriteLast(m, p);
    } else if ref :| !Awaited(m, ref) && !Fits(m, ref, Stored(m, ref)) {
      var steps, end := BadLimitStays(m, ref);
    } else {
      var steps, end := DrainAllBut(m, {});
      assert end.pending == map[] && Drains(m, steps, end);
    }
  }

  // ---- ... for quotas at home ----

  lemma FitsAtHome(m: Mirror, home: map<string, ResourceRef>, c: string, v: Option<Int32>)
    requires OneHomeEach(home) && AtHome(m, home) && c in home
    ensures Fits(m, home[c], v) <==> v == Want(m, c)
  {
  }

  lemma AgreeingIsConverging(m: Mirror, home: map<string, ResourceRef>)
    requires OneHomeEach(home) && AtHome(m, home)
    ensures Agrees(m, home) <==> Converges(m)
  {
    forall p | p in m.pending
      ensures Fits(m, m.pending[p].ref, Leaves(m.pending[p])) <==> Leaves(m.pending[p]) == Want(m, m.pending[p].cqRef)
    {
      FitsAtHome(m, home, m.pending[p].cqRef, Leaves(m.pending[p]));
    }
    forall c | c in home
      ensures Awaited(m, home[c]) <==> exists p :: Owes(m, p, c)
      ensures Fits(m, home[c], Stored(m, home[c])) <==> Stored(m, home[c]) == Want(m, c)
    {
      AwaitedAtHome(m, home, c);
      FitsAtHome(m, home, c, Stored(m, home[c]));
    }
    forall ref | forall c :: c in home ==> home[c] != ref ensures Fits(m, ref, Stored(m, ref)) {
    }
    if Agrees(m, home) {
      forall ref ensures Awaited(m, ref) || Fits(m, ref, Stored(m, ref)) {
        if c :| c in home && home[c] == ref {
          assert Awaited(m, home[c]) || Fits(m, home[c], Stored(m, home[c]));
        }
      }
    }
    if Converges(m) {
      forall c | c in home && (forall p :: !Owes(m, p, c)) ensures Stored(m, home[c]) == Want(m, c) {
        assert !Awaited(m, home[c]);
      }
    }
  }

  lemma AwaitedAtHome(m: Mirror, home: map<string, ResourceRef>, c: string)
    requires OneHomeEach(home) && AtHome(m, home) && c in home
    ensures Awaited(m, home[c]) <==> exists p :: Owes(m, p, c)
  {
    if Awaited(m, home[c]) {
      var p :| p in m.pending && m.pending[p].ref == home[c];
      assert Owes(m, p, c);
    }
  }

  /** However the second regions still to come are ordered, the registry ends up mirroring the quotas
      exactly when every one of them, and every limit at rest, agrees with what was seen last. */
  lemma MirrorsExactlyWhenAgreed(m: Mirror, home: map<string, ResourceRef>)
    requires OneHomeEach(home) && AtHome(m, home)
    ensures Agrees(m, home) <==> forall steps, end :: Drains(m, steps, end) ==> Mirrors(end)
  {
    AgreeingIsConverging(m, home);
    MirrorsExactlyWhenConverging(m);
  }

  /** remember or forget of a quota keeps the mirror certain exactly when nobody stands between the two
      regions of that quota with another limit in hand. */
  lemma MirrorsExactlyWhenApart(m: Mirror, home: map<string, ResourceRef>, step: Step)
    requires OneHomeEach(home) && AtHome(m, home) && Agrees(m, home)
    requires Enabled(m, step) && StaysHome(home, step) && !step.Finish?
    ensures Apart(m, step)
            <==> forall steps, end :: Drains(Do(m, step), steps, end) ==> Mirrors(end)
  {
    HomeStep(m, home, step);
    FirstRegionAgrees(m, home, step);
    MirrorsExactlyWhenAgreed(Do(m, step), home);
  }

  // ---- whole runs ----

  /** Every quota stays where it is, and the actors on it keep apart. */
  ghost predicate PoliteRun(m: Mirror, steps: seq<Step>, end: Mirror, home: map<string, ResourceRef>)
    decreases |steps|
  {
    if steps == [] then m == end
    else
      && Enabled(m, steps[0]) && StaysHome(home, steps[0]) && Apart(m, steps[0])
      && PoliteRun(Do(m, steps[0]), steps[1..], end, home)
  }

  lemma {:induction false} PoliteRunAgrees(m: Mirror, steps: seq<Step>, end: Mirror, home: map<string, ResourceRef>)
    requires OneHomeEach(home) && AtHome(m, home) && Agrees(m, home) && PoliteRun(m, steps, end, home)
    ensures AtHome(end, home) && Agrees(end, home)
    decreases |steps|
  {
    if steps != [] {
      HomeStep(m, home, steps[0]);
      if steps[0].Finish? {
        FinishAgrees(m, home, steps[0].p);
      } else {
        FirstRegionAgrees(m, home, steps[0]);
      }
      PoliteRunAgrees(Do(m, steps[0]), steps[1..], end, home);
    }
  }

  /** After any polite run of any actors, reconciles and initial listing alike, the registry mirrors the
      known quotas as soon as nobody is between two regions, and at every moment the writes still owed
      lead there. */
  lemma RegistryMirrorsQuotas(home: map<string, ResourceRef>, steps: seq<Step>, end: Mirror)
    requires OneHomeEach(home) && PoliteRun(NOTHING_KNOWN, steps, end, home)
    ensures end.pending == map[] ==> Mirrors(end)
    ensures forall more, rest :: Drains(end, more, rest) ==> Mirrors(rest)
  {
    PoliteRunAgrees(NOTHING_KNOWN, steps, end, home);
    MirrorsExactlyWhenAgreed(end, home);
    if end.pending == map[] {
      assert Drains(end, [], end);
    }
  }

  /** A polite run after which nobody owes a write. */
  ghost predicate Rests(steps: seq<Step>, end: Mirror, home: map<string, ResourceRef>) {
    PoliteRun(NOTHING_KNOWN, steps, end, home) && end.pending == map[]
  }

  /** Among polite runs, one reference per quota is exactly what it takes. */
  lemma MirrorsExactlyWhenAlone(home: map<string, ResourceRef>)
    requires forall c :: c in home ==> home[c].identityHash != ""
    ensures OneHomeEach(home)
            <==> forall steps, end :: Rests(steps, end, home) ==> Mirrors(end)
  {
    if OneHomeEach(home) {
      forall steps, end | Rests(steps, end, home) ensures Mirrors(end) {
        RegistryMirrorsQuotas(home, steps, end);
      }
    } else {
      var a, b :| a in home && b in home && home[a] == home[b] && a != b;
      var steps, end := SharedReferenceIsForgotten(home, a, b, 0, 0);
      assert Rests(steps, end, home);
    }
  }

  // ---- one call after another, for any quotas ----

  /** A whole call with nobody else at work: its two regions, or the one region of a forget of a quota
      that is not known. */
  function Call(m: Mirror, first: Step): Mirror
    requires Enabled(m, first) && !first.Finish?
  {
    var mid := Do(m, first);
    if first.p in mid.pending then Do(mid, Finish(first.p)) else mid
  }

  /** No other known quota has c's reference. */
  ghost predicate SoleKnown(m: Mirror, c: string)
    requires c in m.known
  {
    forall d :: d in m.known && d != c ==> m.known[d] != m.known[c]
  }

  /** A remember keeps the mirror if the quotas that share the reference have the same limit, and the
      reference the quota had before, if it was another, is still somebody's. A forget does if the
      reference was nobody else's. */
  ghost predicate Harmless(m: Mirror, first: Step)
    requires !first.Finish?
  {
    var c := first.cqRef;
    if first.Remember? then
      var ref := first.quota.ref;
      && (forall d :: d in m.known && d in m.last && d != c && m.known[d] == ref ==> m.last[d] == first.quota.limit)
      && (c in m.known && m.known[c] != ref ==> !SoleKnown(m, c))
    else c in m.known ==> SoleKnown(m, c)
  }

  lemma RememberMirrorsExactly(m: Mirror, first: Step)
    requires Mirrors(m) && m.pending == map[] && Enabled(m, first) && first.Remember?
    ensures Mirrors(Call(m, first)) <==> Harmless(m, first)
  {
    var m', c, ref := Call(m, first), first.cqRef, first.quota.ref;
    assert m'.known == m.known[c := ref] && m'.last == m.last[c := first.quota.limit];
    assert m'.limits == m.limits[ref := first.quota.limit];
    if Harmless(m, first) {
      forall r | r in m'.limits ensures exists d :: d in m'.known && m'.known[d] == r {
        if r == ref {
          assert m'.known[c] == r;
        } else {
          var d :| d in m.known && m.known[d] == r;
          if d == c {
            var e :| e in m.known && e != c && m.known[e] == r;
            assert m'.known[e] == r;
          } else {
            assert m'.known[d] == r;
          }
        }
      }
    }
    if Mirrors(m') {
      forall d | d in m.known && d in m.last && d != c && m.known[d] == ref ensures m.last[d] == first.quota.limit {
        assert m'.known[d] == ref;
      }
      if c in m.known && m.known[c] != ref {
        assert m.known[c] in m'.limits;
        var d :| d in m'.known && m'.known[d] == m.known[c];
        assert d != c && m.known[d] == m.known[c];
      }
    }
  }

  lemma ForgetMirrors(m: Mirror, m': Mirror, c: string)
    requires Mirrors(m) && c in m.known && SoleKnown(m, c)
    requires m' == Mirror(m.known - {c}, m.limits - {m.known[c]}, m.pending, m.last - {c})
    ensures Mirrors(m')
  {
    forall d | d in m'.known ensures Stored(m', m'.known[d]) == Some(m'.last[d]) {
      assert m.known[d] != m.known[c] && Stored(m, m.known[d]) == Some(m.last[d]);
    }
    forall r | r in m'.limits ensures exists d :: d in m'.known && m'.known[d] == r {
      var d :| d in m.known && m.known[d] == r;
      assert d != c && m'.known[d] == r;
    }
  }

  lemma ForgetMirrorsExactly(m: Mirror, first: Step)
    requires Mirrors(m) && m.pending == map[] && Enabled(m, first) && first.Forget?
    ensures Mirrors(Call(m, first)) <==> Harmless(m, first)
  {
    var m', c := Call(m, first), first.cqRef;
    if c !in m.known {
      assert m' == m;
    } else {
      assert m' == Mirror(m.known - {c}, m.limits - {m.known[c]}, m.pending, m.last - {c});
      if SoleKnown(m, c) {
        ForgetMirrors(m, m', c);
      } else {
        var d :| d in m.known && d != c && m.known[d] == m.known[c];
        assert m'.known[d] !in m'.limits;
      }
    }
  }

  /** From a mirror at rest, one call for any quota, shared or moved, keeps the mirror exactly when it is
      harmless. */
  lemma CallMirrorsExactly(m: Mirror, first: Step)
    requires Mirrors(m) && m.pending == map[] && Enabled(m, first) && !first.Finish?
    ensures Mirrors(Call(m, first)) <==> Harmless(m, first)
  {
    if first.Remember? {
      RememberMirrorsExactly(m, first);
    } else {
      ForgetMirrorsExactly(m, first);
    }
  }

  ghost predicate Calls(m: Mirror, firsts: seq<Step>)
    decreases |firsts|
  {
    firsts == [] || (Enabled(m, firsts[0]) && !firsts[0].Finish? && Calls(Call(m, firsts[0]), firsts[1..]))
  }

  ghost predicate MirrorsThroughout(m: Mirror, firsts: seq<Step>)
    requires Calls(m, firsts)
    decreases |firsts|
  {
    Mirrors(m) && (firsts != [] ==> MirrorsThroughout(Call(m, firsts[0]), firsts[1..]))
  }

  ghost predicate HarmlessThroughout(m: Mirror, firsts: seq<Step>)
    requires Calls(m, firsts)
    decreases |firsts|
  {
    firsts != [] ==> Harmless(m, firsts[0]) && HarmlessThroughout(Call(m, firsts[0]), firsts[1..])
  }

  /** One call after another, the registry mirrors the known quotas after each of them exactly when every
      call is harmless where it is made. */
  lemma {:induction false} CallsMirrorExactly(m: Mirror, firsts: seq<Step>)
    requires Mirrors(m) && m.pending == map[] && Calls(m, firsts)
    ensures MirrorsThroughout(m, firsts) <==> HarmlessThroughout(m, firsts)
    decreases |firsts|
  {
    if firsts != [] {
      var m' := Call(m, firsts[0]);
      CallMirrorsExactly(m, firsts[0]);
      if Mirrors(m') {
        assert m'.pending == map[];
        CallsMirrorExactly(m', firsts[1..]);
      }
    }
  }

  // ---- runs that end without a mirror ----

  lemma {:induction false} PoliteOn(
    a: Mirror, x: seq<Step>, b: Mirror, step: Step, home: map<string, ResourceRef>)
    requires PoliteRun(a, x, b, home) && Enabled(b, step) && StaysHome(home, step) && Apart(b, step)
    ensures PoliteRun(a, x + [step], Do(b, step), home)
    decreases |x|
  {
    if x == [] {
      assert [step][1..] == [];
    } else {
      PoliteOn(Do(a, x[0]), x[1..], b, step, home);
      assert (x + [step])[1..] == x[1..] + [step];
    }
  }

  /** A remember, or a forget of a known quota, from beginning to end with nobody else at work. */
  lemma Undisturbed(a: Mirror, x: seq<Step>, b: Mirror, first: Step, home: map<string, ResourceRef>)
    requires PoliteRun(a, x, b, home) && b.pending == map[]
    requires Enabled(b, first) && StaysHome(home, first) && first.p == 0
    requires first.Remember? || (first.Forget? && first.cqRef in b.known)
    ensures PoliteRun(a, x + [first] + [Finish(0)], Do(Do(b, first), Finish(0)), home)
  {
    PoliteOn(a, x, b, first, home);
    PoliteOn(a, x + [first], Do(b, first), Finish(0), home);
  }

  /** When two quotas govern one reference, deleting either makes the other's limit unknown. */
  lemma SharedReferenceIsForgotten(home: map<string, ResourceRef>, a: string, b: string, x: Int32, y: Int32)
    returns (steps: seq<Step>, end: Mirror)
    requires a in home && b in home && home[a] == home[b] && a != b && home[a].identityHash != ""
    ensures PoliteRun(NOTHING_KNOWN, steps, end, home) && end.pending == map[]
    ensures a in end.known && end.known[a] == home[a] && home[a] !in end.limits && !Mirrors(end)
  {
    var ref := home[a];
    var first, second, third := Remember(0, a, Quota(ref, x, false)), Remember(0, b, Quota(ref, y, false)), Forget(0, b);
    var m1 := Mirror(map[a := ref], map[ref := x], map[], map[a := x]);
    var m2 := Mirror(map[a := ref, b := ref], map[ref := y], map[], map[a := x, b := y]);
    end := Mirror(map[a := ref], map[], map[], map[a := x]);
    Undisturbed(NOTHING_KNOWN, [], NOTHING_KNOWN, first, home);
    assert Do(Do(NOTHING_KNOWN, first), Finish(0)) == m1;
    steps := [] + [first] + [Finish(0)];
    Undisturbed(NOTHING_KNOWN, steps, m1, second, home);
    assert Do(Do(m1, second), Finish(0)) == m2;
    steps := steps + [second] + [Finish(0)];
    Undisturbed(NOTHING_KNOWN, steps, m2, third, home);
    assert Do(Do(m2, third), Finish(0)) == end;
    steps := steps + [third] + [Finish(0)];
  }

  /** When a quota moves to another reference, the limit of the old one is never forgotten: this run is
      polite but for the move. */
  lemma MovedReferenceLingers(ref: ResourceRef, ref': ResourceRef, a: string, x: Int32)
    returns (steps: seq<Step>, moved: Mirror, more: seq<Step>, end: Mirror)
    requires ref != ref' && ref.identityHash != "" && ref'.identityHash != ""
    ensures PoliteRun(NOTHING_KNOWN, steps, moved, map[a := ref])
    ensures PoliteRun(moved, more, end, map[a := ref']) && end.pending == map[]
    ensures end.known == map[] && ref in end.limits && !Mirrors(end)
  {
    var first, second, third := Remember(0, a, Quota(ref, x, false)), Remember(0, a, Quota(ref', x, false)), Forget(0, a);
    var mid := Mirror(map[a := ref'], map[ref := x, ref' := x], map[], map[a := x]);
    moved := Mirror(map[a := ref], map[ref := x], map[], map[a := x]);
    end := Mirror(map[], map[ref := x], map[], map[]);
    Undisturbed(NOTHING_KNOWN, [], NOTHING_KNOWN, first, map[a := ref]);
    assert Do(Do(NOTHING_KNOWN, first), Finish(0)) == moved;
    steps := [] + [first] + [Finish(0)];
    Undisturbed(moved, [], moved, second, map[a := ref']);
    assert Do(Do(moved, second), Finish(0)) == mid;
    more := [] + [second] + [Finish(0)];
    Undisturbed(moved, more, mid, third, map[a := ref']);
    assert Do(Do(mid, third), Finish(0)) == end;
    more := more + [third] + [Finish(0)];
  }

  lemma FourSteps(m: Mirror, s1: Step, s2: Step, s3: Step, s4: Step)
    requires Enabled(m, s1) && Enabled(Do(m, s1), s2)
    requires Enabled(Do(Do(m, s1), s2), s3) && Enabled(Do(Do(Do(m, s1), s2), s3), s4)
    ensures Run(m, [s1, s2, s3, s4], Do(Do(Do(Do(m, s1), s2), s3), s4))
  {
    var m1 := Do(m, s1);
    var m2 := Do(m1, s2);
    var m3 := Do(m2, s3);
    OneStep(m, s1);
    OneStep(m1, s2);
    OneStep(m2, s3);
    OneStep(m3, s4);
    RunsOn(m2, [s3], m3, [s4], Do(m3, s4));
    RunsOn(m1, [s2], m2, [s3] + [s4], Do(m3, s4));
    RunsOn(m, [s1], m1, [s2] + ([s3] + [s4]), Do(m3, s4));
    assert [s1] + ([s2] + ([s3] + [s4])) == [s1, s2, s3, s4];
  }

  /** The initial listing remembers a quota while a reconcile forgets it: the reconcile deletes the limit
      first, and the listing sets it for good. */
  lemma OverlapLeavesStray(ref: ResourceRef, a: string, x: Int32)
    requires ref.identityHash != ""
    ensures var steps := [Remember(1, a, Quota(ref, x, false)), Forget(0, a), Finish(0), Finish(1)];
            var end := Mirror(map[], map[ref := x], map[], map[]);
            Run(NOTHING_KNOWN, steps, end) && !Mirrors(end)
  {
    var s1, s2, s3, s4 := Remember(1, a, Quota(ref, x, false)), Forget(0, a), Finish(0), Finish(1);
    var m1 := Mirror(map[a := ref], map[], map[1 := SetLimit(a, ref, x)], map[a := x]);
    var m2 := Mirror(map[], map[], map[1 := SetLimit(a, ref, x), 0 := DropLimit(a, ref)], map[]);
    var m3 := Mirror(map[], map[], map[1 := SetLimit(a, ref, x)], map[]);
    var m4 := Mirror(map[], map[ref := x], map[], map[]);
    assert Do(NOTHING_KNOWN, s1) == m1 && Do(m1, s2) == m2 && Do(m2, s3) == m3 && Do(m3, s4) == m4;
    FourSteps(NOTHING_KNOWN, s1, s2, s3, s4);
    assert ref in m4.limits;
  }

  /** ... and the other way round: a listing remembers a quota that a reconcile is still forgetting, whose
      limit then goes although the quota is known. */
  lemma OverlapLosesLimit(ref: ResourceRef, a: string, x: Int32)
    requires ref.identityHash != ""
    ensures var steps := [Forget(0, a), Remember(1, a, Quota(ref, x, false)), Finish(1), Finish(0)];
            var end := Mirror(map[a := ref], map[], map[], map[a := x]);
            Run(Mirror(map[a := ref], map[ref := x], map[], map[a := x]), steps, end) && !Mirrors(end)
  {
    var s1, s2, s3, s4 := Forget(0, a), Remember(1, a, Quota(ref, x, false)), Finish(1), Finish(0);
    var m0 := Mirror(map[a := ref], map[ref := x], map[], map[a := x]);
    var m1 := Mirror(map[], map[ref := x], map[0 := DropLimit(a, ref)], map[]);
    var m2 := Mirror(map[a := ref], map[ref := x], map[0 := DropLimit(a, ref), 1 := SetLimit(a, ref, x)], map[a := x]);
    var m3 := Mirror(map[a := ref], map[ref := x], map[0 := DropLimit(a, ref)], map[a := x]);
    var m4 := Mirror(map[a := ref], map[], map[], map[a := x]);
    assert Do(m0, s1) == m1 && Do(m1, s2) == m2 && Do(m2, s3) == m3 && Do(m3, s4) == m4;
    FourSteps(m0, s1, s2, s3, s4);
    assert a in m4.known && Stored(m4, ref) == None;
  }
}
