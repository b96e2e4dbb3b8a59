/**
 The accountingManager object itself: each locked region is a method that updates its maps in place,
 proved to do to the books what the function of the same name says.
 */
module AccountingManagers {
  import opened ManagerBooks

  class AccountingManager {
    var sets: map<string, nat>
    var refs: map<string, set<string>>
    var starting: set<string>
    var cancelled: set<nat>

    ghost function View(): Books
      reads this
    {
      Books(sets, refs, starting, cancelled)
    }

    constructor ()
      ensures View() == Books(map[], map[], {}, {})
    {
      sets, refs, starting, cancelled := map[], map[], {}, {};
    }

    /** Ranges over refs in any order, deleting from it on the way. */
    method DropRefLocked(ref: string, keep: string)
      modifies this
      ensures View() == DropRef(old(View()), ref, keep)
    {
      ghost var b := View();
      var todo := refs.Keys;
      ghost var done := {};
      assert DropRefIn(b, ref, keep, {}) == b;
      while todo != {}
        invariant done + todo == b.refs.Keys && done !! todo
        invariant View() == DropRefIn(b, ref, keep, done)
        decreases todo
      {
        var key :| key in todo;
        todo := todo - {key};
        DropRefOneMore(b, ref, keep, done, key);
        done := done + {key};
        if key == keep || ref !in refs[key] {
          continue;
        }
        ghost var entry := refs;
        refs := refs[key := refs[key] - {ref}];
        if refs[key] != {} {
          continue;
        }
        refs := refs - {key};
        assert refs == entry - {key};
        if key in sets {
          cancelled := cancelled + {sets[key]};
          sets := sets - {key};
        }
      }
      assert done == b.refs.Keys;
    }

    method EnsureBegin(ref: string, key: string) returns (start: bool)
      modifies this
      ensures (View(), start) == ManagerBooks.EnsureBegin(old(View()), ref, key)
      ensures Begun(old(View()), View(), ref, key, start)
    {
      EnsureBeginMeaning(View(), ref, key);
      DropRefLocked(ref, key);
      ghost var dropped := refs;
      if key !in refs {
        refs := refs[key := {}];
      }
      refs := refs[key := refs[key] + {ref}];
      assert refs == dropped[key := (if key in dropped then dropped[key] else {}) + {ref}];
      if key in sets || key in starting {
        return false;
      }
      starting := starting + {key};
      return true;
    }

    method EnsureEnd(ref: string, key: string, failed: bool)
      modifies this
      ensures View() == ManagerBooks.EnsureEnd(old(View()), ref, key, failed)
      ensures starting == old(starting) - {key}
      ensures forall k, r :: k != "" ==>
                (r in RefsOf(View(), k) <==> r in RefsOf(old(View()), k) && !(failed && r == ref))
      ensures !failed ==> sets == old(sets) && refs == old(refs) && cancelled == old(cancelled)
    {
      starting := starting - {key};
      DropRefMeaning(View(), ref, "");
      if failed {
        DropRefLocked(ref, "");
      }
    }

    method Remove(providerCluster: string, cqName: string)
      modifies this
      ensures View() == ManagerBooks.Remove(old(View()), QuotaRef(providerCluster, cqName))
      ensures Removed(old(View()), View(), providerCluster + "/" + cqName)
    {
      DropRefMeaning(View(), QuotaRef(providerCluster, cqName), "");
      DropRefLocked(QuotaRef(providerCluster, cqName), "");
    }

    method Register(key: string, id: nat)
      modifies this
      ensures View() == ManagerBooks.Register(old(View()), key, id)
      ensures sets == old(sets)[key := id]
      ensures refs == old(refs) && starting == old(starting) && cancelled == old(cancelled)
    {
      sets := sets[key := id];
    }

    method WatcherEnd(key: string, id: nat) returns (retry: bool)
      modifies this
      ensures (View(), retry) == ManagerBooks.WatcherEnd(old(View()), key, id)
      ensures var mine := key in old(sets) && old(sets)[key] == id;
              && sets == (if mine then old(sets) - {key} else old(sets))
              && (retry <==> mine && key in refs && refs[key] != {})
      ensures refs == old(refs) && starting == old(starting) && cancelled == old(cancelled)
    {
      if key !in sets || sets[key] != id {
        return false;
      }
      sets := sets - {key};
      return key in refs && refs[key] != {};
    }

    method RetryBegin(key: string) returns (start: bool)
      modifies this
      ensures (View(), start) == ManagerBooks.RetryBegin(old(View()), key)
      ensures start <==> key in refs && refs[key] != {} && key !in sets && key !in old(starting)
      ensures starting == if start then old(starting) + {key} else old(starting)
      ensures sets == old(sets) && refs == old(refs) && cancelled == old(cancelled)
    {
      if !(key in refs && refs[key] != {}) {
        return false;
      }
      if key in sets || key in starting {
        return false;
      }
      starting := starting + {key};
      return true;
    }

    method RetryEnd(key: string)
      modifies this
      ensures View() == ManagerBooks.RetryEnd(old(View()), key)
      ensures starting == old(starting) - {key}
      ensures sets == old(sets) && refs == old(refs) && cancelled == old(cancelled)
    {
      starting := starting - {key};
    }
  }
}
