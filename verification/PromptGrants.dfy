/**
 Timeliness from delays: when every grant is a new one, it is enough that objects are created and folded
 within the time to live, less the skew of the clocks, of the decision that admitted them.
 */
module PromptGrants {
  import opened Accounting
  import opened QuotaStore
  import opened Protocol
  import opened ProtocolSafety
  import opened NoOvershoot

  /** When each process last decided, and when each object's admission was decided, on the fastest clock. */
  datatype Diary = Diary(decided: map<nat, int>, admitted: map<Obj, int>)

  /** The time to live of every reservation, and how far behind the fastest clock a reading may be. */
  datatype Delays = Delays(ttl: int, skew: nat)

  function Newborn(s: State, p: nat, name: string): Obj
    requires At(s, p).Granted?
  {
    Obj(At(s, p).key, name, |s.hist|, At(s, p).expiry)
  }

  function Note(d: Diary, s: State, step: Step): Diary
    requires Enabled(s, step)
  {
    match step
    case Decide(p, _, _) => d.(decided := d.decided[p := s.clock])
    case CreateObject(p, name) =>
      if p in d.decided then d.(admitted := d.admitted[Newborn(s, p, name) := d.decided[p]]) else d
    case _ => d
  }

  /** Every grant is a new one, decided at a reading that is not further behind than the skew; each object
      is created and folded less than the time to live, less the skew, after its admission. */
  ghost predicate Prompt(s: State, d: Diary, step: Step, delays: Delays)
    requires Enabled(s, step)
  {
    match step
    case BeginReserve(_, _, _, ttl) => ttl == delays.ttl
    case Decide(p, now, _) =>
      At(s, p).m.MReserve? ==> s.clock - delays.skew <= now && !Holds(At(s, p).st, At(s, p).m.key, now)
    case CreateObject(p, _) => p in d.decided ==> s.clock < d.decided[p] + delays.ttl - delays.skew
    case Tick(to) =>
      s.snap < |s.hist| ==> forall o :: o in Live(s) && o !in s.hist[s.snap] && o in d.admitted ==>
        to < d.admitted[o] + delays.ttl - delays.skew
    case _ => true
  }

  ghost predicate OtherHypotheses(s: State, step: Step)
    requires Enabled(s, step)
  {
    NoStaleName(s, step) && OneObjectPerUid(s, step) && ForwardOnly(s, step) && CountFits(s, step)
  }

  ghost predicate PromptRun(s: State, d: Diary, steps: seq<Step>, delays: Delays)
    decreases |steps|
  {
    steps == [] ||
    (Enabled(s, steps[0]) && Prompt(s, d, steps[0], delays) && OtherHypotheses(s, steps[0])
     && PromptRun(Do(s, steps[0]), Note(d, s, steps[0]), steps[1..], delays))
  }

  // ---- the diary is right ----

  ghost predicate ProcNoted(d: Diary, p: nat, pr: Proc, delays: Delays) {
    match pr
    case Trying(m) => m.MReserve? ==> m.ttl == delays.ttl
    case Got(m, _, _, _) => m.MReserve? ==> m.ttl == delays.ttl
    case Decided(m, _, _, _, now) =>
      m.MReserve? ==> m.ttl == delays.ttl && p in d.decided && d.decided[p] - delays.skew <= now
    case Granted(_, expiry, _) => p in d.decided && d.decided[p] + delays.ttl - delays.skew <= expiry
    case _ => true
  }

  /** Every object but those from the start has its admission noted, and expires no earlier than the delays
      say. */
  ghost predicate ObjNoted(d: Diary, o: Obj, delays: Delays) {
    o.born > 0 ==> o in d.admitted && d.admitted[o] + delays.ttl - delays.skew <= o.due
  }

  ghost predicate Noted(s: State, d: Diary, delays: Delays) {
    && (forall p: nat :: ProcNoted(d, p, At(s, p), delays))
    && (forall o :: o in Live(s) ==> ObjNoted(d, o, delays))
  }

  /** An object from the start is in every snapshot for as long as it lives. */
  lemma PromptIsInTime(s: State, d: Diary, step: Step, delays: Delays)
    requires Inv(s) && Noted(s, d, delays) && Enabled(s, step) && Prompt(s, d, step, delays)
    ensures InTime(s, step)
  {
    if step.Tick? {
      forall o | o in Live(s) && o !in s.hist[s.snap] ensures step.to < o.due {
        assert ObjNoted(d, o, delays);
      }
    } else if step.CreateObject? {
      assert ProcNoted(d, step.p, At(s, step.p), delays);
    }
  }

  lemma ProcStaysNoted(s: State, d: Diary, step: Step, delays: Delays, p: nat)
    requires ProcNoted(d, p, At(s, p), delays) && Enabled(s, step) && Prompt(s, d, step, delays)
    ensures ProcNoted(Note(d, s, step), p, At(Do(s, step), p), delays)
  {
  }

  lemma OnlyCreateAdds(s: State, step: Step)
    requires Enabled(s, step) && s.hist != []
    ensures if step.CreateObject? then Live(Do(s, step)) == Live(s) + {Newborn(s, step.p, step.name)}
            else Live(Do(s, step)) <= Live(s)
  {
  }

  lemma NoteKeepsOthers(s: State, d: Diary, step: Step, delays: Delays, o: Obj)
    requires Enabled(s, step) && ObjNoted(d, o, delays) && o.born < |s.hist|
    ensures ObjNoted(Note(d, s, step), o, delays)
  {
  }

  lemma NewbornIsNoted(s: State, d: Diary, p: nat, name: string, delays: Delays)
    requires Enabled(s, CreateObject(p, name)) && ProcNoted(d, p, At(s, p), delays)
    ensures ObjNoted(Note(d, s, CreateObject(p, name)), Newborn(s, p, name), delays)
  {
  }

  lemma ObjsStayNoted(s: State, d: Diary, step: Step, delays: Delays)
    requires History(s) && s.hist != [] && Noted(s, d, delays) && Enabled(s, step)
    ensures forall o :: o in Live(Do(s, step)) ==> ObjNoted(Note(d, s, step), o, delays)
  {
    OnlyCreateAdds(s, step);
    LiveIsBornEarlier(s);
    forall o | o in Live(Do(s, step)) ensures ObjNoted(Note(d, s, step), o, delays) {
      if o in Live(s) {
        NoteKeepsOthers(s, d, step, delays, o);
      } else {
        NewbornIsNoted(s, d, step.p, step.name, delays);
      }
    }
  }

  lemma StepStaysNoted(s: State, d: Diary, step: Step, delays: Delays)
    requires Inv(s) && Noted(s, d, delays) && Enabled(s, step) && Prompt(s, d, step, delays)
    ensures Noted(Do(s, step), Note(d, s, step), delays)
  {
    forall p: nat ensures ProcNoted(Note(d, s, step), p, At(Do(s, step), p), delays) {
      assert ProcNoted(d, p, At(s, p), delays);
      ProcStaysNoted(s, d, step, delays, p);
    }
    ObjsStayNoted(s, d, step, delays);
  }

  lemma {:induction false} PromptRunMeetsAll(s: State, d: Diary, steps: seq<Step>, delays: Delays)
    requires Inv(s) && Noted(s, d, delays) && PromptRun(s, d, steps, delays)
    ensures Run(s, steps)
    decreases |steps|
  {
    if steps != [] {
      PromptIsInTime(s, d, steps[0], delays);
      StepKeepsInv(s, steps[0]);
      StepStaysNoted(s, d, steps[0], delays);
      PromptRunMeetsAll(Do(s, steps[0]), Note(d, s, steps[0]), steps[1..], delays);
    }
  }

  /** Prompt runs of new grants meet every hypothesis, and so never pass the limit. */
  lemma NewGrantsNeedOnlyBePrompt(s: State, steps: seq<Step>, delays: Delays, limit: int)
    requires Init(s) && PromptRun(s, Diary(map[], map[]), steps, delays)
    requires |Live(s)| <= limit && LimitsUpTo(steps, limit)
    ensures Run(s, steps) && |Live(End(s, steps))| <= limit
  {
    InitHasInv(s);
    PromptRunMeetsAll(s, Diary(map[], map[]), steps, delays);
    LimitIsNeverExceeded(s, steps, limit);
  }
}
