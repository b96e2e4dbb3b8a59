/**
 The same operations as the Go code runs them: loops over a slice, an append to a deep copy and
 compaction into the front of the copy's own backing array. Each is proved equal to its meaning in
 Accounting, writes only memory it allocated, and so leaves the caller's status as it was.
 */
module AccountingLoops {
  import opened Accounting

  /** A status whose reservations are a Go slice: the first len cells of a backing array. */
  datatype SliceStatus = SliceStatus(confirmed: Int32, cells: array<Reservation>, len: nat) {
    ghost predicate Valid() {
      len <= cells.Length
    }

    ghost function View(): Status
      requires Valid()
      reads cells
    {
      Status(confirmed, cells[..len])
    }
  }

  const NO_RESERVATION := Reservation("", 0)

  /** DeepCopy: the same value over a backing array of its own, with room for extra more cells. */
  method DeepCopy(st: SliceStatus, extra: nat) returns (out: SliceStatus)
    requires st.Valid()
    ensures out.Valid() && fresh(out.cells)
    ensures out.cells.Length == st.len + extra
    ensures out.View() == st.View()
  {
    var cells := new Reservation[st.len + extra](_ => NO_RESERVATION);
    for i := 0 to st.len
      invariant cells[..i] == st.cells[..i]
    {
      cells[i] := st.cells[i];
    }
    out := SliceStatus(st.confirmed, cells, st.len);
  }

  lemma CountOneMore(rs: seq<Reservation>, i: nat, now: int)
    requires i < |rs|
    ensures Wrap32(|Unexpired(rs[..i + 1], now)|)
            == if rs[i].expiresAt > now then Wrap32(Wrap32(|Unexpired(rs[..i], now)|) + 1)
               else Wrap32(|Unexpired(rs[..i], now)|)
  {
    UnexpiredPrefix(rs, i, now);
    WrapSum(|Unexpired(rs[..i], now)|, 1);
  }

  /** The loop counts in 32 bits, so both the count and the sum may wrap. */
  method Used(st: SliceStatus, now: int) returns (used: Int32)
    requires st.Valid()
    ensures used == Accounting.Used(st.View(), now)
  {
    ghost var rs := st.cells[..st.len];
    var live: Int32 := 0;
    for i := 0 to st.len
      invariant live == Wrap32(|Unexpired(rs[..i], now)|)
    {
      CountOneMore(rs, i, now);
      if st.cells[i].expiresAt > now {
        live := Wrap32(live + 1);
      }
    }
    assert rs[..st.len] == rs;
    WrapSum(|Unexpired(rs, now)|, st.confirmed);
    used := Wrap32(st.confirmed + live);
  }

  method Reserve(st: SliceStatus, key: string, limit: Int32, now: int, ttl: int)
    returns (out: SliceStatus, ok: bool)
    requires st.Valid()
    ensures out.Valid()
    ensures (out.View(), ok) == Accounting.Reserve(st.View(), key, limit, now, ttl)
    ensures out == st || fresh(out.cells)
  {
    for i := 0 to st.len
      invariant forall j :: 0 <= j < i ==> !(st.cells[j].key == key && st.cells[j].expiresAt > now)
    {
      if st.cells[i].key == key && st.cells[i].expiresAt > now {
        assert st.cells[i] in st.View().reservations;
        return st, true;
      }
    }
    assert !Holds(st.View(), key, now);
    var used := Used(st, now);
    if used >= limit {
      return st, false;
    }
    out := DeepCopy(st, 1);
    out.cells[out.len] := Reservation(key, now + ttl);
    out := out.(len := out.len + 1);
    assert out.cells[..out.len] == out.cells[..st.len] + [Reservation(key, now + ttl)];
    return out, true;
  }

  /** The cells after i steps of a compaction: the kept ones in front, and from i on what was there. */
  ghost predicate Packed(cells: seq<Reservation>, all: seq<Reservation>, front: seq<Reservation>, i: nat) {
    && |cells| == |all| && |front| <= i <= |all|
    && cells[..|front|] == front && cells[i..] == all[i..]
  }

  /** The next step keeps its cell, moved up to the front, or leaves it. */
  lemma PackedStep(cells: seq<Reservation>, all: seq<Reservation>, front: seq<Reservation>, i: nat)
    requires Packed(cells, all, front, i) && i < |all|
    ensures cells[i] == all[i] && all[..i] + [all[i]] == all[..i + 1]
    ensures Packed(cells[|front| := cells[i]], all, front + [cells[i]], i + 1)
    ensures Packed(cells, all, front, i + 1)
  {
    var moved := cells[|front| := cells[i]];
    assert cells[i] == cells[i..][0] == all[i..][0];
    assert moved[..|front| + 1] == front + [cells[i]];
    assert moved[i + 1..] == cells[i + 1..] == cells[i..][1..] == all[i..][1..] == all[i + 1..];
  }

  /** Moves the unexpired reservations of the first len cells to the front, in order, and says how many there are. */
  method CompactUnexpired(cells: array<Reservation>, len: nat, now: int) returns (kept: nat)
    requires len <= cells.Length
    modifies cells
    ensures kept <= len
    ensures cells[..kept] == Unexpired(old(cells[..len]), now)
  {
    ghost var all := cells[..];
    ghost var done, front := [], [];
    kept := 0;
    for i := 0 to len
      invariant kept == |front| && done == all[..i]
      invariant front == Unexpired(done, now)
      invariant Packed(cells[..], all, front, i)
    {
      var r := cells[i];
      PackedStep(cells[..], all, front, i);
      UnexpiredAppend(done, r, now);
      done := done + [r];
      if r.expiresAt > now {
        cells[kept] := r;
        kept := kept + 1;
        front := front + [r];
      }
    }
  }

  /** Moves those of the first len reservations that no key in keys fulfils to the front, in order, and says how many there are. */
  method CompactUnmatched(cells: array<Reservation>, len: nat, keys: set<string>) returns (kept: nat)
    requires len <= cells.Length
    modifies cells
    ensures kept <= len
    ensures cells[..kept] == Unmatched(old(cells[..len]), keys)
  {
    ghost var all := cells[..];
    ghost var done, front := [], [];
    kept := 0;
    for i := 0 to len
      invariant kept == |front| && done == all[..i]
      invariant front == Unmatched(done, keys)
      invariant Packed(cells[..], all, front, i)
    {
      var r := cells[i];
      PackedStep(cells[..], all, front, i);
      UnmatchedAppend(done, r, keys);
      done := done + [r];
      if r.key !in keys {
        cells[kept] := r;
        kept := kept + 1;
        front := front + [r];
      }
    }
  }

  method Sweep(st: SliceStatus, now: int) returns (out: SliceStatus)
    requires st.Valid()
    ensures out.Valid() && fresh(out.cells)
    ensures out.View() == Accounting.Sweep(st.View(), now)
  {
    var copy := DeepCopy(st, 0);
    assert copy.View().reservations == st.View().reservations;
    var kept := CompactUnexpired(copy.cells, copy.len, now);
    out := copy.(len := kept);
  }

  method FoldConfirmed(st: SliceStatus, trueCount: Int32, liveKeys: set<string>)
    returns (out: SliceStatus)
    requires st.Valid()
    ensures out.Valid() && fresh(out.cells)
    ensures out.View() == Accounting.FoldConfirmed(st.View(), trueCount, liveKeys)
  {
    var copy := DeepCopy(st, 0);
    assert copy.View().reservations == st.View().reservations;
    var kept := CompactUnmatched(copy.cells, copy.len, liveKeys);
    out := SliceStatus(trueCount, copy.cells, kept);
  }

  /** ComputeConfirmed: the listed keys become a set, their number the new confirmed count. */
  method ComputeConfirmed(st: SliceStatus, liveKeys: seq<string>) returns (out: SliceStatus)
    requires st.Valid()
    ensures out.Valid() && fresh(out.cells)
    ensures out.View() == Accounting.ComputeConfirmed(st.View(), liveKeys)
  {
    out := FoldConfirmed(st, Wrap32(|liveKeys|), KeySet(liveKeys));
  }
}
