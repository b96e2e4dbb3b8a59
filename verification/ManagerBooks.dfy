/**
 The lock-protected books of cmd/controller's accountingManager: which informer set runs for which
 governed export, which quotas reference it and which starts are in flight. Every region the Go code
 runs under its mutex is one function on Books.
 */
module ManagerBooks {
  import KeysAndNames

  /** sets maps an accounting key to its registered set, refs to the quotas that reference it; starting
      holds the keys with a start in flight. cancelled holds the sets whose context was cancelled. */
  datatype Books = Books(
    sets: map<string, nat>, refs: map<string, set<string>>, starting: set<string>, cancelled: set<nat>)

  function AccountingKey(group: string, resource: string, identityHash: string): string {
    group + "/" + resource + "/" + identityHash
  }

  function QuotaRef(providerCluster: string, cqName: string): string {
    providerCluster + "/" + cqName
  }

  /** Distinct exports have distinct keys, none of them the empty one that spares no key. */
  lemma AccountingKeyInjective(
    group: string, resource: string, id: string, group': string, resource': string, id': string)
    requires KeysAndNames.Without(group, '/') && KeysAndNames.Without(group', '/')
    requires KeysAndNames.Without(resource, '/') && KeysAndNames.Without(resource', '/')
    ensures AccountingKey(group, resource, id) != ""
    ensures AccountingKey(group, resource, id) == AccountingKey(group', resource', id')
            ==> group == group' && resource == resource' && id == id'
  {
    var rest, rest' := resource + ['/'] + id, resource' + ['/'] + id';
    assert AccountingKey(group, resource, id) == group + ['/'] + rest;
    assert AccountingKey(group', resource', id') == group' + ['/'] + rest';
    if AccountingKey(group, resource, id) == AccountingKey(group', resource', id') {
      KeysAndNames.SplitUnique(group, rest, group', rest', '/');
      KeysAndNames.SplitUnique(resource, id, resource', id', '/');
    }
  }

  /** Distinct quotas have distinct references. */
  lemma QuotaRefInjective(cluster: string, name: string, cluster': string, name': string)
    requires KeysAndNames.Without(cluster, '/') && KeysAndNames.Without(cluster', '/')
    requires QuotaRef(cluster, name) == QuotaRef(cluster', name')
    ensures cluster == cluster' && name == name'
  {
    assert cluster + ['/'] + name == cluster' + ['/'] + name';
    KeysAndNames.SplitUnique(cluster, name, cluster', name', '/');
  }

  function RefsOf(b: Books, key: string): set<string> {
    if key in b.refs then b.refs[key] else {}
  }

  predicate Busy(b: Books, key: string) {
    key in b.sets || key in b.starting
  }

  /** Dropping ref, with keep spared, takes away the last reference of key. */
  predicate Tears(b: Books, ref: string, keep: string, key: string) {
    key in b.refs && key != keep && b.refs[key] == {ref}
  }

  /** dropRefLocked restricted to the keys in scope. */
  function DropRefIn(b: Books, ref: string, keep: string, scope: set<string>): Books {
    b.(refs := map k | k in b.refs && !(k in scope && Tears(b, ref, keep, k)) ::
                 if k in scope && k != keep then b.refs[k] - {ref} else b.refs[k],
       sets := map k | k in b.sets && !(k in scope && Tears(b, ref, keep, k)) :: b.sets[k],
       cancelled := b.cancelled + set k | k in b.sets && k in scope && Tears(b, ref, keep, k) :: b.sets[k])
  }

  /** dropRefLocked: ref leaves every key but keep; a key left without references is torn down. */
  function DropRef(b: Books, ref: string, keep: string): Books {
    DropRefIn(b, ref, keep, b.refs.Keys)
  }

  function AddRef(b: Books, ref: string, key: string): Books {
    var dropped := DropRef(b, ref, key);
    dropped.(refs := dropped.refs[key := RefsOf(dropped, key) + {ref}])
  }

  /** The first locked region of Ensure; the answer says whether this call has to start the set. */
  function EnsureBegin(b: Books, ref: string, key: string): (Books, bool) {
    var counted := AddRef(b, ref, key);
    if Busy(counted, key) then (counted, false)
    else (counted.(starting := counted.starting + {key}), true)
  }

  /** The last locked region of Ensure: a failed start rolls the reference back. */
  function EnsureEnd(b: Books, ref: string, key: string, failed: bool): Books {
    var done := b.(starting := b.starting - {key});
    if failed then DropRef(done, ref, "") else done
  }

  function Remove(b: Books, ref: string): Books {
    DropRef(b, ref, "")
  }

  /** The locked region of start: the new set is registered before its goroutine runs. */
  function Register(b: Books, key: string, id: nat): Books {
    b.(sets := b.sets[key := id])
  }

  /** cancel(), which every exit of the set's goroutine calls first. */
  function Cancel(b: Books, id: nat): Books {
    b.(cancelled := b.cancelled + {id})
  }

  /** The locked region of the goroutine once its manager has stopped; the answer says whether to
      schedule a retry. */
  function WatcherEnd(b: Books, key: string, id: nat): (Books, bool) {
    if key !in b.sets || b.sets[key] != id then (b, false)
    else (b.(sets := b.sets - {key}), RefsOf(b, key) != {})
  }

  /** The check retryStart makes before each relaunch. */
  function RetryBegin(b: Books, key: string): (Books, bool) {
    if RefsOf(b, key) == {} || Busy(b, key) then (b, false)
    else (b.(starting := b.starting + {key}), true)
  }

  function RetryEnd(b: Books, key: string): Books {
    b.(starting := b.starting - {key})
  }

  /** From b to b', ref is in no reference set any more; the sets whose key it alone referenced are
      unregistered and cancelled; every other reference, set and start is as before. (No accounting key is
      empty.) */
  ghost predicate Removed(b: Books, b': Books, ref: string) {
    && b'.starting == b.starting
    && (forall k :: k != "" ==> RefsOf(b', k) == RefsOf(b, k) - {ref})
    && (forall k :: k != "" ==> (k in b'.sets <==> k in b.sets && !(k in b.refs && b.refs[k] == {ref})))
    && (forall k :: k in b'.sets ==> k in b.sets && b'.sets[k] == b.sets[k])
    && (forall id :: id in b'.cancelled <==>
          id in b.cancelled
          || exists k :: k != "" && k in b.sets && k in b.refs && b.refs[k] == {ref} && b.sets[k] == id)
  }

  /** From b to b', ref counts under key and no other; nobody else's reference moves; the sets of other keys
      that it alone referenced go; and the start is claimed if the key has neither a set nor a start. */
  ghost predicate Begun(b: Books, b': Books, ref: string, key: string, start: bool) {
    && (forall k, r :: r in RefsOf(b', k) <==> if r == ref then k == key else r in RefsOf(b, k))
    && (forall k :: k in b'.sets <==> k in b.sets && !(k != key && k in b.refs && b.refs[k] == {ref}))
    && (forall k :: k in b'.sets ==> k in b.sets && b'.sets[k] == b.sets[k])
    && (start <==> key !in b.sets && key !in b.starting)
    && b'.starting == if start then b.starting + {key} else b.starting
  }

  lemma EnsureBeginMeaning(b: Books, ref: string, key: string)
    ensures Begun(b, EnsureBegin(b, ref, key).0, ref, key, EnsureBegin(b, ref, key).1)
  {
    DropRefMeaning(b, ref, key);
  }

  // ---- what the deleting loop amounts to ----

  lemma DropNothing(b: Books, ref: string, keep: string, scope: set<string>, key: string)
    requires key in b.refs && key !in scope && (key == keep || ref !in b.refs[key])
    ensures DropRefIn(b, ref, keep, scope + {key}) == DropRefIn(b, ref, keep, scope)
  {
    var before, after := DropRefIn(b, ref, keep, scope), DropRefIn(b, ref, keep, scope + {key});
    assert ref !in b.refs[key] ==> b.refs[key] - {ref} == b.refs[key];
    assert after.refs == before.refs && after.sets == before.sets && after.cancelled == before.cancelled;
  }

  lemma DropOneOfMany(b: Books, ref: string, keep: string, scope: set<string>, key: string)
    requires key in b.refs && key !in scope && key != keep && ref in b.refs[key] && b.refs[key] != {ref}
    ensures var before := DropRefIn(b, ref, keep, scope);
            DropRefIn(b, ref, keep, scope + {key}) == before.(refs := before.refs[key := b.refs[key] - {ref}])
  {
    var before, after := DropRefIn(b, ref, keep, scope), DropRefIn(b, ref, keep, scope + {key});
    assert after.refs == before.refs[key := b.refs[key] - {ref}];
    assert after.sets == before.sets && after.cancelled == before.cancelled;
  }

  lemma DropTheLast(b: Books, ref: string, keep: string, scope: set<string>, key: string)
    requires key in b.refs && key !in scope && key != keep && b.refs[key] == {ref}
    ensures var before := DropRefIn(b, ref, keep, scope);
            var after := DropRefIn(b, ref, keep, scope + {key});
            if key in b.sets then
              && key in before.sets && before.sets[key] == b.sets[key]
              && after == before.(refs := before.refs - {key}, sets := before.sets - {key},
                                  cancelled := before.cancelled + {b.sets[key]})
            else key !in before.sets && after == before.(refs := before.refs - {key})
  {
    var before, after := DropRefIn(b, ref, keep, scope), DropRefIn(b, ref, keep, scope + {key});
    assert after.refs == before.refs - {key};
    if key !in b.sets {
      assert after.sets == before.sets && after.cancelled == before.cancelled;
    }
  }

  /** One turn of the loop drops ref from key as well. */
  lemma DropRefOneMore(b: Books, ref: string, keep: string, scope: set<string>, key: string)
    requires key in b.refs && key !in scope
    ensures var before := DropRefIn(b, ref, keep, scope);
            var after := DropRefIn(b, ref, keep, scope + {key});
            && key in before.refs && before.refs[key] == b.refs[key]
            && (if key == keep || ref !in b.refs[key] then after == before
                else if b.refs[key] != {ref} then
                  after == before.(refs := before.refs[key := b.refs[key] - {ref}])
                else if key in b.sets then
                  && key in before.sets && before.sets[key] == b.sets[key]
                  && after == before.(refs := before.refs - {key}, sets := before.sets - {key},
                                      cancelled := before.cancelled + {b.sets[key]})
                else key !in before.sets && after == before.(refs := before.refs - {key}))
  {
    if key == keep || ref !in b.refs[key] {
      DropNothing(b, ref, keep, scope, key);
    } else if b.refs[key] != {ref} {
      DropOneOfMany(b, ref, keep, scope, key);
    } else {
      DropTheLast(b, ref, keep, scope, key);
    }
  }

  /** From b to b', ref leaves every key but keep, and nobody else's reference moves; the sets whose key only
      ref referenced are unregistered and cancelled, the others stay. */
  ghost predicate Dropped(b: Books, b': Books, ref: string, keep: string) {
    && b'.starting == b.starting
    && (forall k :: RefsOf(b', k) == if k == keep then RefsOf(b, k) else RefsOf(b, k) - {ref})
    && (forall k :: k in b'.refs <==> k in b.refs && !Tears(b, ref, keep, k))
    && (forall k :: k in b'.sets <==> k in b.sets && !Tears(b, ref, keep, k))
    && (forall k :: k in b'.sets ==> b'.sets[k] == b.sets[k])
    && (forall id :: id in b'.cancelled <==>
          id in b.cancelled || exists k :: k in b.sets && Tears(b, ref, keep, k) && b.sets[k] == id)
  }

  lemma DropRefMeaning(b: Books, ref: string, keep: string)
    ensures Dropped(b, DropRef(b, ref, keep), ref, keep)
    ensures RefsTidy(b) ==> RefsTidy(DropRef(b, ref, keep))
  {
    var b' := DropRef(b, ref, keep);
    forall k ensures RefsOf(b', k) == if k == keep then RefsOf(b, k) else RefsOf(b, k) - {ref} {
      if k in b.refs && Tears(b, ref, keep, k) {
        assert k !in b'.refs;
      }
    }
    forall k | k in b'.refs && b.refs[k] != {} ensures b'.refs[k] != {} {
      if k != keep {
        var other :| other in b.refs[k] && other != ref;
        assert other in b'.refs[k];
      }
    }
  }

  /** No quota is counted twice and no reference set is empty. */
  ghost predicate RefsTidy(b: Books) {
    && (forall k :: k in b.refs ==> b.refs[k] != {})
    && (forall k, l, ref :: k in b.refs && l in b.refs && ref in b.refs[k] && ref in b.refs[l] ==> k == l)
  }
}
