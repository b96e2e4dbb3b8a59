/**
 The reservation arithmetic of a QuotaUsage ledger (internal/accounting) on values:
 what each operation means, with Go's 32-bit counters written out, and the laws that relate them.
 */
module Accounting {

  const MIN_INT32: int := -0x8000_0000
  const MAX_INT32: int := 0x7FFF_FFFF

  type Int32 = x: int | MIN_INT32 <= x <= MAX_INT32

  /** Conversion to Go's int32: two's complement wrap-around. */
  function Wrap32(x: int): (r: Int32)
    ensures MIN_INT32 <= x <= MAX_INT32 ==> r == x
    ensures (r - x) % 0x1_0000_0000 == 0
  {
    (x - MIN_INT32) % 0x1_0000_0000 + MIN_INT32
  }

  datatype Reservation = Reservation(key: string, expiresAt: int)

  datatype Status = Status(confirmed: Int32, reservations: seq<Reservation>)

  const EMPTY := Status(0, [])

  /** The reservations that have not expired at now, in order. */
  function Unexpired(rs: seq<Reservation>, now: int): (kept: seq<Reservation>)
    ensures |kept| <= |rs|
  {
    if rs == [] then []
    else
      var init, last := rs[..|rs| - 1], rs[|rs| - 1];
      if last.expiresAt > now then Unexpired(init, now) + [last] else Unexpired(init, now)
  }

  /** The reservations whose key is not in keys, in order. */
  function Unmatched(rs: seq<Reservation>, keys: set<string>): (kept: seq<Reservation>)
    ensures |kept| <= |rs|
  {
    if rs == [] then []
    else
      var init, last := rs[..|rs| - 1], rs[|rs| - 1];
      if last.key !in keys then Unmatched(init, keys) + [last] else Unmatched(init, keys)
  }

  /** Confirmed objects plus unexpired reservations, as an unbounded number. */
  function Tally(st: Status, now: int): int {
    st.confirmed + |Unexpired(st.reservations, now)|
  }

  function Used(st: Status, now: int): Int32 {
    Wrap32(Tally(st, now))
  }

  predicate Holds(st: Status, key: string, now: int) {
    exists r :: r in st.reservations && r.key == key && r.expiresAt > now
  }

  function Reserve(st: Status, key: string, limit: Int32, now: int, ttl: int): (Status, bool) {
    if Holds(st, key, now) then (st, true)
    else if Used(st, now) >= limit then (st, false)
    else (st.(reservations := st.reservations + [Reservation(key, now + ttl)]), true)
  }

  function Sweep(st: Status, now: int): Status {
    st.(reservations := Unexpired(st.reservations, now))
  }

  function FoldConfirmed(st: Status, trueCount: Int32, liveKeys: set<string>): Status {
    Status(trueCount, Unmatched(st.reservations, liveKeys))
  }

  function KeySet(keys: seq<string>): set<string> {
    set k | k in keys
  }

  function ComputeConfirmed(st: Status, liveKeys: seq<string>): Status {
    FoldConfirmed(st, Wrap32(|liveKeys|), KeySet(liveKeys))
  }

  /** The keys that hold an unexpired reservation. */
  function LiveKeys(rs: seq<Reservation>, now: int): set<string> {
    set r | r in rs && r.expiresAt > now :: r.key
  }

  /** No two unexpired reservations share a key. */
  ghost predicate OnePerKey(rs: seq<Reservation>, now: int) {
    forall i, j :: 0 <= i < j < |rs| && rs[i].expiresAt > now && rs[j].expiresAt > now
                   ==> rs[i].key != rs[j].key
  }

  // ---- the 32-bit counter ----

  /** Wrapping a partial sum early does not change the wrapped total. */
  lemma WrapSum(x: int, y: int)
    ensures Wrap32(Wrap32(x) + y) == Wrap32(x + y)
  {
    var q := (x - MIN_INT32) / 0x1_0000_0000;
    assert Wrap32(x) == x - q * 0x1_0000_0000;
    var z := x + y - MIN_INT32;
    assert (z - q * 0x1_0000_0000) % 0x1_0000_0000 == z % 0x1_0000_0000;
  }

  /** The wrapped counter takes the same decision as exact arithmetic exactly when the tally fits. (A
      slice holds fewer reservations than an int32 can count.) */
  lemma WrapDecision(st: Status, limit: Int32, now: int)
    requires 0 <= limit && 0 <= st.confirmed && |st.reservations| <= MAX_INT32
    ensures (Used(st, now) < limit <==> Tally(st, now) < limit) <==> Tally(st, now) <= MAX_INT32
  {
    var t := Tally(st, now);
    if t > MAX_INT32 {
      assert Used(st, now) == t - 0x1_0000_0000 < 0;
    }
  }

  /** A ledger over its limit in exact arithmetic which still grants, because the count wrapped. */
  lemma WrapOverAllows(key: string, ttl: int) returns (st: Status)
    ensures Tally(st, 0) == MAX_INT32 + 1
    ensures Reserve(st, key, 0x4000_0000, 0, ttl).1
    ensures forall r :: r in st.reservations ==> r.key != key
  {
    var r := Reservation(key + "'", 1);
    st := Status(MAX_INT32, [r]);
    assert Unexpired([r], 0) == [r] by {
      assert [r][..0] == [];
    }
  }

  // ---- filters ----

  lemma {:induction false} UnexpiredMembers(rs: seq<Reservation>, now: int)
    ensures forall r :: r in Unexpired(rs, now) <==> r in rs && r.expiresAt > now
  {
    if rs != [] {
      UnexpiredMembers(rs[..|rs| - 1], now);
      assert rs == rs[..|rs| - 1] + [rs[|rs| - 1]];
    }
  }

  lemma {:induction false} UnmatchedMembers(rs: seq<Reservation>, keys: set<string>)
    ensures forall r :: r in Unmatched(rs, keys) <==> r in rs && r.key !in keys
  {
    if rs != [] {
      UnmatchedMembers(rs[..|rs| - 1], keys);
      assert rs == rs[..|rs| - 1] + [rs[|rs| - 1]];
    }
  }

  lemma {:induction false} UnexpiredAppend(rs: seq<Reservation>, r: Reservation, now: int)
    ensures Unexpired(rs + [r], now) 
            == if r.expiresAt > now then Unexpired(rs, now) + [r] else Unexpired(rs, now)
  {
    assert (rs + [r])[..|rs|] == rs;
  }

  lemma {:induction false} UnmatchedAppend(rs: seq<Reservation>, r: Reservation, keys: set<string>)
    ensures Unmatched(rs + [r], keys) 
            == if r.key !in keys then Unmatched(rs, keys) + [r] else Unmatched(rs, keys)
  {
    assert (rs + [r])[..|rs|] == rs;
  }

  lemma UnexpiredPrefix(rs: seq<Reservation>, i: nat, now: int)
    requires i < |rs|
    ensures Unexpired(rs[..i + 1], now)
            == if rs[i].expiresAt > now then Unexpired(rs[..i], now) + [rs[i]] else Unexpired(rs[..i], now)
  {
    assert rs[..i + 1] == rs[..i] + [rs[i]];
    UnexpiredAppend(rs[..i], rs[i], now);
  }

  /** Filtering at an earlier instant first changes nothing. */
  lemma {:induction false} UnexpiredLater(rs: seq<Reservation>, now: int, later: int)
    requires now <= later
    ensures Unexpired(Unexpired(rs, now), later) == Unexpired(rs, later)
    ensures |Unexpired(rs, later)| <= |Unexpired(rs, now)|
  {
    if rs != [] {
      var init, last := rs[..|rs| - 1], rs[|rs| - 1];
      UnexpiredLater(init, now, later);
      if last.expiresAt > now {
        UnexpiredAppend(Unexpired(init, now), last, later);
      }
    }
  }

  /** The two filters commute. */
  lemma {:induction false} FiltersCommute(rs: seq<Reservation>, now: int, keys: set<string>)
    ensures Unexpired(Unmatched(rs, keys), now) == Unmatched(Unexpired(rs, now), keys)
  {
    if rs != [] {
      var init, last := rs[..|rs| - 1], rs[|rs| - 1];
      FiltersCommute(init, now, keys);
      if last.key !in keys {
        UnexpiredAppend(Unmatched(init, keys), last, now);
      }
      if last.expiresAt > now {
        UnmatchedAppend(Unexpired(init, now), last, keys);
      }
    }
  }

  /** A filter that keeps everything is the identity. */
  lemma {:induction false} NothingToDrop(rs: seq<Reservation>, now: int, keys: set<string>)
    ensures (forall r :: r in rs ==> r.expiresAt > now) ==> Unexpired(rs, now) == rs
    ensures (forall r :: r in rs ==> r.key !in keys) ==> Unmatched(rs, keys) == rs
  {
    if rs != [] {
      var init, last := rs[..|rs| - 1], rs[|rs| - 1];
      assert rs == init + [last];
      NothingToDrop(init, now, keys);
    }
  }

  // ---- counting ----

  lemma {:induction false} LiveKeysAppend(rs: seq<Reservation>, r: Reservation, now: int)
    ensures LiveKeys(rs + [r], now) == LiveKeys(rs, now) + if r.expiresAt > now then {r.key} else {}
  {
    var both := rs + [r];
    assert forall x :: x in both <==> x in rs || x == r;
    forall k | k in LiveKeys(rs, now) + if r.expiresAt > now then {r.key} else {}
      ensures k in LiveKeys(both, now)
    {
      if k in LiveKeys(rs, now) {
        var x :| x in rs && x.expiresAt > now && x.key == k;
        assert x in both;
      } else {
        assert r in both;
      }
    }
  }

  /** Each key with an unexpired reservation is counted at least once. */
  lemma {:induction false} LiveKeysBound(rs: seq<Reservation>, now: int)
    ensures |LiveKeys(rs, now)| <= |Unexpired(rs, now)|
  {
    if rs != [] {
      var init, last := rs[..|rs| - 1], rs[|rs| - 1];
      assert rs == init + [last];
      LiveKeysBound(init, now);
      LiveKeysAppend(init, last, now);
    }
  }

  lemma OnePerKeySplit(init: seq<Reservation>, last: Reservation, now: int)
    requires OnePerKey(init + [last], now)
    ensures OnePerKey(init, now)
    ensures last.expiresAt > now ==> last.key !in LiveKeys(init, now)
  {
    var rs := init + [last];
    assert forall i :: 0 <= i < |init| ==> rs[i] == init[i];
    forall r | r in init && r.expiresAt > now && last.expiresAt > now
      ensures r.key != last.key
    {
      var i :| 0 <= i < |init| && init[i] == r;
      assert rs[i] == r && rs[|init|] == last;
    }
  }

  /** ... and exactly once when no key has two. */
  lemma {:induction false} LiveKeysCount(rs: seq<Reservation>, now: int)
    requires OnePerKey(rs, now)
    ensures |LiveKeys(rs, now)| == |Unexpired(rs, now)|
  {
    if rs != [] {
      var init, last := rs[..|rs| - 1], rs[|rs| - 1];
      assert rs == init + [last];
      OnePerKeySplit(init, last, now);
      LiveKeysCount(init, now);
      LiveKeysAppend(init, last, now);
    }
  }

  // ---- one unexpired reservation per key ----

  lemma {:induction false} OnePerKeyUnderSweep(rs: seq<Reservation>, now: int, at: int)
    requires OnePerKey(rs, at)
    ensures OnePerKey(Unexpired(rs, now), at)
  {
    if rs != [] {
      var init, last := rs[..|rs| - 1], rs[|rs| - 1];
      OnePerKeyUnderSweep(init, now, at);
      var kept := Unexpired(init, now);
      forall i | 0 <= i < |kept| && kept[i].expiresAt > at && last.expiresAt > at
        ensures kept[i].key != last.key
      {
        UnexpiredMembers(init, now);
        assert kept[i] in kept;
        var j :| 0 <= j < |init| && init[j] == kept[i];
        assert rs[j] == kept[i] && rs[|rs| - 1] == last;
      }
    }
  }

  lemma {:induction false} OnePerKeyUnderFold(rs: seq<Reservation>, keys: set<string>, at: int)
    requires OnePerKey(rs, at)
    ensures OnePerKey(Unmatched(rs, keys), at)
  {
    if rs != [] {
      var init, last := rs[..|rs| - 1], rs[|rs| - 1];
      OnePerKeyUnderFold(init, keys, at);
      var kept := Unmatched(init, keys);
      forall i | 0 <= i < |kept| && kept[i].expiresAt > at && last.expiresAt > at
        ensures kept[i].key != last.key
      {
        UnmatchedMembers(init, keys);
        assert kept[i] in kept;
        var j :| 0 <= j < |init| && init[j] == kept[i];
        assert rs[j] == kept[i] && rs[|rs| - 1] == last;
      }
    }
  }

  /** A decision taken at now keeps the reservations distinct at any instant from now on. */
  lemma OnePerKeyUnderReserve(st: Status, key: string, limit: Int32, now: int, ttl: int, at: int)
    requires now <= at && OnePerKey(st.reservations, at)
    ensures OnePerKey(Reserve(st, key, limit, now, ttl).0.reservations, at)
  {
  }

  // ---- what the operations mean for the keys held and for the count ----

  lemma HoldsIsLive(st: Status, key: string, now: int)
    ensures Holds(st, key, now) <==> key in LiveKeys(st.reservations, now)
  {
  }

  /** A reservation is granted exactly to a key that holds one or while the count is below the limit;
      afterwards the key is held, nobody else's slot moved, and the tally grew by the slot taken. */
  lemma ReserveMeaning(st: Status, key: string, limit: Int32, now: int, ttl: int)
    requires 0 < ttl
    ensures var (out, ok) := Reserve(st, key, limit, now, ttl);
            var held := LiveKeys(st.reservations, now);
            && (ok <==> key in held || Used(st, now) < limit)
            && (ok ==> LiveKeys(out.reservations, now) == held + {key})
            && (ok ==> Tally(out, now) == Tally(st, now) + if key in held then 0 else 1)
            && (!ok ==> out == st)
  {
    HoldsIsLive(st, key, now);
    var r := Reservation(key, now + ttl);
    LiveKeysAppend(st.reservations, r, now);
    UnexpiredAppend(st.reservations, r, now);
  }

  /** A sweep leaves only unexpired reservations and changes no count, then or later. */
  lemma SweepMeaning(st: Status, now: int, later: int)
    requires now <= later
    ensures forall r :: r in Sweep(st, now).reservations <==> r in st.reservations && r.expiresAt > now
    ensures Tally(Sweep(st, now), later) == Tally(st, later)
    ensures LiveKeys(Sweep(st, now).reservations, later) == LiveKeys(st.reservations, later)
  {
    UnexpiredMembers(st.reservations, now);
    UnexpiredLater(st.reservations, now, later);
  }

  // ---- hand-off and convergence ----

  lemma LiveKeysOutside(rs: seq<Reservation>, keys: set<string>, now: int)
    ensures LiveKeys(Unmatched(rs, keys), now) == LiveKeys(rs, now) - keys
  {
    UnmatchedMembers(rs, keys);
  }

  /** After folding K the tally is |K| plus the unexpired reservations that K does not fulfil. */
  lemma HandOff(st: Status, keys: seq<string>, now: int)
    requires |keys| <= MAX_INT32
    ensures Tally(ComputeConfirmed(st, keys), now)
            == |keys| + |Unmatched(Unexpired(st.reservations, now), KeySet(keys))|
  {
    FiltersCommute(st.reservations, now, KeySet(keys));
  }

  /** A reservation moves into confirmed with the object it stood for: when the fold adds
      exactly the reserved keys to the previous listing, the tally does not move. */
  lemma {:induction false} HandOffIsNeutral(st: Status, keys: seq<string>, now: int)
    requires |keys| <= MAX_INT32 && OnePerKey(st.reservations, now)
    requires |keys| == st.confirmed + |LiveKeys(st.reservations, now) * KeySet(keys)|
    ensures Tally(ComputeConfirmed(st, keys), now) == Tally(st, now)
  {
    var rs, K := st.reservations, KeySet(keys);
    var all, left := LiveKeys(rs, now), LiveKeys(Unmatched(rs, K), now);
    HandOff(st, keys, now);
    FiltersCommute(rs, now, K);
    LiveKeysCount(rs, now);
    OnePerKeyUnderFold(rs, K, now);
    LiveKeysCount(Unmatched(rs, K), now);
    LiveKeysOutside(rs, K, now);
    assert all == (all * K) + (all - K);
    assert |all| == |all * K| + |left|;
  }

  /** With the objects settled at L, one fold and one sweep past every expiry leave confirmed = |L|
      and no reservations, and from then on no fold of L and no sweep has anything to write. */
  lemma Convergence(st: Status, live: seq<string>, now: int, later: int)
    requires |live| <= MAX_INT32
    requires forall r :: r in st.reservations ==> r.expiresAt <= now
    ensures var settled := Sweep(ComputeConfirmed(st, live), now);
            && settled == Status(|live|, [])
            && settled == ComputeConfirmed(Sweep(st, now), live)
            && ComputeConfirmed(settled, live) == settled
            && Sweep(settled, later) == settled
  {
    FiltersCommute(st.reservations, now, KeySet(live));
    UnexpiredMembers(st.reservations, now);
    assert forall r :: r !in Unexpired(st.reservations, now);
    assert Unexpired(st.reservations, now) == [];
  }
}
