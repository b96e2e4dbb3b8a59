/**
 The webhook configuration as the installer keeps it: a list of entries shared with others, read,
 modified and written back. One leader reconciles at a time; every API call may fail.
 */
module WebhookEntries {
  import opened KeysAndNames

  /** The governed resource of a quota with its stamped identity. */
  datatype Rule = Rule(group: string, version: string, resource: string, identityHash: string)

  datatype Entry = Entry(name: string, url: string, group: string, versions: string, resource: string)

  /** buildWebhookEntry: every served version of the resource is intercepted. */
  function EntryFor(base: string, rule: Rule): Entry {
    Entry(EntryName(rule.resource, rule.identityHash),
          base + ValidatePath(ResourceRef(rule.group, rule.resource, rule.identityHash)),
          rule.group, "*", rule.resource)
  }

  /** Every field of an entry, and where its URL leads: its path parses to the governed resource with its
      identity. */
  lemma EntryMeaning(base: string, rule: Rule) returns (path: string)
    ensures EntryFor(base, rule) == Entry(EntryName(rule.resource, rule.identityHash), base + path,
                                          rule.group, "*", rule.resource)
    ensures path == "/validate/" + rule.group + "/" + rule.resource + "/" + rule.identityHash
    ensures var ref := ResourceRef(rule.group, rule.resource, rule.identityHash);
            Addressable(ref) ==> ParseValidatePath(path) == Some(ref)
  {
    path := "/validate/" + rule.group + "/" + rule.resource + "/" + rule.identityHash;
    var ref := ResourceRef(rule.group, rule.resource, rule.identityHash);
    assert ValidatePath(ref) == path;
    if Addressable(ref) {
      SegmentsParse(rule.group, rule.resource, rule.identityHash);
    }
  }

  /** The first entry of the rule's name intercepts every version of the rule's resource and sends it to
      the rule's path. */
  ghost predicate Enforces(es: seq<Entry>, base: string, rule: Rule) {
    exists i :: 0 <= i < |es|
      && es[i] == Entry(EntryName(rule.resource, rule.identityHash),
                        base + ("/validate/" + rule.group + "/" + rule.resource + "/" + rule.identityHash),
                        rule.group, "*", rule.resource)
      && forall j :: 0 <= j < i ==> es[j].name != es[i].name
  }

  lemma {:induction false} UpsertEnforces(es: seq<Entry>, base: string, rule: Rule)
    ensures Enforces(Upsert(es, EntryFor(base, rule)), base, rule)
  {
    var e := EntryFor(base, rule);
    var path := EntryMeaning(base, rule);
    if es == [] || es[0].name == e.name {
      assert Upsert(es, e)[0] == e;
    } else {
      UpsertEnforces(es[1..], base, rule);
      var tail, up := Upsert(es[1..], e), Upsert(es, e);
      var i :| 0 <= i < |tail| && tail[i] == e && forall j :: 0 <= j < i ==> tail[j].name != e.name;
      assert up[i + 1] == e && forall j :: 0 < j < i + 1 ==> up[j] == tail[j - 1];
    }
  }

  /** Replaces the first entry of that name in place, or appends. */
  function Upsert(es: seq<Entry>, e: Entry): seq<Entry> {
    if es == [] then [e]
    else if es[0].name == e.name then [e] + es[1..]
    else [es[0]] + Upsert(es[1..], e)
  }

  /** The entries whose name is in names, in order. */
  function Pick(es: seq<Entry>, names: set<string>): seq<Entry> {
    if es == [] then []
    else if es[0].name in names then [es[0]] + Pick(es[1..], names)
    else Pick(es[1..], names)
  }

  /** The other entries, in order. */
  function Drop(es: seq<Entry>, names: set<string>): seq<Entry> {
    if es == [] then []
    else if es[0].name in names then Drop(es[1..], names)
    else [es[0]] + Drop(es[1..], names)
  }

  /** Upsert by position: i is the first entry of that name, or the end. */
  lemma {:induction false} UpsertAt(es: seq<Entry>, e: Entry, i: nat)
    requires i <= |es| && (i < |es| ==> es[i].name == e.name)
    requires forall j :: 0 <= j < i ==> es[j].name != e.name
    ensures Upsert(es, e) == if i < |es| then es[i := e] else es + [e]
  {
    if i == 0 {
      if es != [] {
        assert es[0 := e] == [e] + es[1..];
      }
    } else {
      assert forall j :: 0 <= j < i - 1 ==> es[1..][j] == es[j + 1];
      UpsertAt(es[1..], e, i - 1);
      if i < |es| {
        assert es[i := e] == [es[0]] + es[1..][i - 1 := e];
      } else {
        assert es + [e] == [es[0]] + (es[1..] + [e]);
      }
    }
  }

  // ---- what one change does to everybody's entries ----

  lemma {:induction false} UpsertLeavesOthers(es: seq<Entry>, e: Entry, names: set<string>)
    ensures e.name !in names ==> Pick(Upsert(es, e), names) == Pick(es, names)
    ensures e.name in names ==> Drop(Upsert(es, e), names) == Drop(es, names)
  {
    if es != [] {
      var up := Upsert(es, e);
      assert up[1..] == if es[0].name == e.name then es[1..] else Upsert(es[1..], e);
      UpsertLeavesOthers(es[1..], e, names);
    }
  }

  lemma {:induction false} UpsertOwn(es: seq<Entry>, e: Entry)
    requires |Pick(es, {e.name})| <= 1
    ensures Pick(Upsert(es, e), {e.name}) == [e]
  {
    if es == [] {
      assert [e][1..] == [];
    } else {
      var up := Upsert(es, e);
      if es[0].name == e.name {
        assert up[1..] == es[1..];
        assert Pick(es[1..], {e.name}) == [];
      } else {
        assert up[1..] == Upsert(es[1..], e);
        UpsertOwn(es[1..], e);
      }
    }
  }

  lemma {:induction false} DropLeavesOthers(es: seq<Entry>, name: string, names: set<string>)
    ensures name !in names ==> Pick(Drop(es, {name}), names) == Pick(es, names)
    ensures name in names ==> Drop(Drop(es, {name}), names) == Drop(es, names)
    ensures Pick(Drop(es, {name}), {name}) == []
  {
    if es != [] {
      DropLeavesOthers(es[1..], name, names);
      if es[0].name != name {
        assert Drop(es, {name})[1..] == Drop(es[1..], {name});
      }
    }
  }

  // ---- the installer ----

  datatype Fate = Served | Refused | ReplyLost

  /** The provider workspace's configuration object; without entries it does not exist. */
  class Configuration {
    var entries: Option<seq<Entry>>

    ghost function Contents(): seq<Entry>
      reads this
    {
      if entries.None? then [] else entries.value
    }

    /** Create, Update or Delete of the object: a write that may be refused or lose its reply. */
    method Write(next: Option<seq<Entry>>, fate: Fate) returns (failed: bool)
      modifies this
      ensures failed <==> fate != Served
      ensures entries == if fate == Refused then old(entries) else next
    {
      if fate == Refused {
        return true;
      }
      entries := next;
      return fate == ReplyLost;
    }
  }

  /** The closure of Reconcile: replace the entry with this name, or append. */
  method UpsertInto(hooks: seq<Entry>, entry: Entry) returns (next: seq<Entry>)
    ensures next == Upsert(hooks, entry)
  {
    for i := 0 to |hooks|
      invariant forall j :: 0 <= j < i ==> hooks[j].name != entry.name
    {
      if hooks[i].name == entry.name {
        UpsertAt(hooks, entry, i);
        return hooks[i := entry];
      }
    }
    UpsertAt(hooks, entry, |hooks|);
    return hooks + [entry];
  }

  /** The filter loop of Remove. */
  method FilterOut(hooks: seq<Entry>, name: string) returns (filtered: seq<Entry>)
    ensures filtered == Drop(hooks, {name})
  {
    filtered := [];
    for i := 0 to |hooks|
      invariant Drop(hooks, {name}) == filtered + Drop(hooks[i..], {name})
    {
      assert hooks[i..][1..] == hooks[i + 1..];
      if hooks[i].name != name {
        filtered := filtered + [hooks[i]];
      }
    }
  }

  /** WebhookInstaller.Reconcile: upserts the quota's entry; without an identity it does nothing. */
  method InstallerReconcile(c: Configuration, base: string, rule: Rule, read: Fate, write: Fate)
    returns (failed: bool)
    modifies c
    ensures rule.identityHash == "" ==> !failed && c.entries == old(c.entries)
    ensures rule.identityHash != "" && !failed ==>
              c.entries == Some(Upsert(old(c.Contents()), EntryFor(base, rule)))
    ensures c.entries == old(c.entries)
            || c.entries == Some(Upsert(old(c.Contents()), EntryFor(base, rule)))
    ensures rule.identityHash != "" && !failed ==> Enforces(c.Contents(), base, rule)
    ensures read == Served && write == Served ==> !failed
  {
    if rule.identityHash == "" {
      return false;
    }
    if read != Served {
      return true;
    }
    var hooks := if c.entries.None? then [] else c.entries.value;
    var entry := EntryFor(base, rule);
    var next := UpsertInto(hooks, entry);
    UpsertEnforces(hooks, base, rule);
    if c.entries == Some(next) {
      return false;
    }
    failed := c.Write(Some(next), write);
  }

  /** WebhookInstaller.Remove: filters the quota's entry out and deletes the object when nothing is
      left; an object that is not there is fine. */
  method InstallerRemove(c: Configuration, rule: Rule, read: Fate, write: Fate)
    returns (failed: bool)
    modifies c
    ensures !failed ==> c.Contents() == Drop(old(c.Contents()), {EntryName(rule.resource, rule.identityHash)})
    ensures !failed && c.Contents() == [] ==> c.entries.None?
    ensures c.entries == old(c.entries)
            || c.Contents() == Drop(old(c.Contents()), {EntryName(rule.resource, rule.identityHash)})
    ensures read == Served && write == Served ==> !failed
  {
    if read != Served {
      return true;
    }
    if c.entries.None? {
      return false;
    }
    var hooks, name := c.entries.value, EntryName(rule.resource, rule.identityHash);
    var filtered := FilterOut(hooks, name);
    if filtered == [] {
      failed := c.Write(None, write);
    } else {
      failed := c.Write(Some(filtered), write);
    }
  }

  // ---- whole runs of one leader ----

  datatype Change = Installed(quota: string) | Removed(quota: string)

  function Apply(es: seq<Entry>, own: map<string, Entry>, ch: Change): seq<Entry>
    requires ch.quota in own
  {
    match ch
    case Installed(q) => Upsert(es, own[q])
    case Removed(q) => Drop(es, {own[q].name})
  }

  function ApplyAll(es: seq<Entry>, own: map<string, Entry>, chs: seq<Change>): seq<Entry>
    requires forall ch :: ch in chs ==> ch.quota in own
    decreases |chs|
  {
    if chs == [] then es
    else
      var init, last := chs[..|chs| - 1], chs[|chs| - 1];
      assert last in chs;
      Apply(ApplyAll(es, own, init), own, last)
  }

  /** The quotas whose last change was an installation. */
  function InForce(chs: seq<Change>): set<string> {
    if chs == [] then {}
    else
      var init, last := chs[..|chs| - 1], chs[|chs| - 1];
      if last.Installed? then InForce(init) + {last.quota} else InForce(init) - {last.quota}
  }

  function OwnNames(own: map<string, Entry>): set<string> {
    set q | q in own :: own[q].name
  }

  ghost predicate NamesDistinct(own: map<string, Entry>) {
    forall q, r :: q in own && r in own && own[q].name == own[r].name ==> q == r
  }

  /** With distinct entry names, after any sequence of installations and removals the configuration
      holds exactly one, current entry for each quota in force, none for the others, and the entries
      of strangers as they were and in their order. */
  lemma {:induction false} EntriesFollowQuotas(es: seq<Entry>, own: map<string, Entry>, chs: seq<Change>)
    requires NamesDistinct(own) && Pick(es, OwnNames(own)) == []
    requires forall ch :: ch in chs ==> ch.quota in own
    ensures var now := ApplyAll(es, own, chs);
            && Drop(now, OwnNames(own)) == Drop(es, OwnNames(own))
            && forall q :: q in own ==>
                 Pick(now, {own[q].name}) == if q in InForce(chs) then [own[q]] else []
    decreases |chs|
  {
    if chs == [] {
      forall q | q in own ensures Pick(es, {own[q].name}) == [] {
        assert own[q].name in OwnNames(own);
        PickFewer(es, {own[q].name}, OwnNames(own));
      }
    } else {
      var init, last := chs[..|chs| - 1], chs[|chs| - 1];
      assert last in chs;
      EntriesFollowQuotas(es, own, init);
      var before, e := ApplyAll(es, own, init), own[last.quota];
      assert e.name in OwnNames(own);
      UpsertLeavesOthers(before, e, OwnNames(own));
      DropLeavesOthers(before, e.name, OwnNames(own));
      UpsertOwn(before, e);
      forall q | q in own
        ensures Pick(Apply(before, own, last), {own[q].name}) == if q in InForce(chs) then [own[q]] else []
      {
        if q != last.quota {
          UpsertLeavesOthers(before, e, {own[q].name});
          DropLeavesOthers(before, e.name, {own[q].name});
        }
      }
    }
  }

  lemma {:induction false} PickFewer(es: seq<Entry>, few: set<string>, many: set<string>)
    requires few <= many && Pick(es, many) == []
    ensures Pick(es, few) == []
  {
    if es != [] {
      PickFewer(es[1..], few, many);
    }
  }

  /** Names leave out group and version, so two quotas may share an entry: then removing one of them
      removes the other's enforcement although it was installed and never removed. */
  lemma SharedNameIsRemoved(own: map<string, Entry>, q: string, r: string)
    requires q in own && r in own && q != r && own[q].name == own[r].name
    ensures var chs := [Installed(q), Installed(r), Removed(r)];
            q in InForce(chs) && ApplyAll([], own, chs) == []
  {
    var c1, c2, c3 := Installed(q), Installed(r), Removed(r);
    assert [c1][..0] == [] && [c1, c2][..1] == [c1] && [c1, c2, c3][..2] == [c1, c2];
    assert ApplyAll([], own, [c1]) == [own[q]];
    assert ApplyAll([], own, [c1, c2]) == [own[r]];
    assert [own[r]][1..] == [];
    assert Drop([own[r]], {own[r].name}) == [];
    assert ApplyAll([], own, [c1, c2, c3]) == Drop([own[r]], {own[r].name});
    assert InForce([c1]) == {q};
    assert InForce([c1, c2]) == {q, r};
  }

  /** What the API server admits and kcp stamps: names that the installer does not cut, hashes without
      a dash. */
  predicate Uncut(rule: Rule) {
    |rule.resource| <= 30 && |rule.identityHash| <= 32 && Without(rule.identityHash, '-')
  }

  function EntriesOf(base: string, rules: map<string, Rule>): map<string, Entry> {
    map q | q in rules :: EntryFor(base, rules[q])
  }

  /** ... and so it is for quotas that govern different resources or identities, whose names the
      installer does not cut. */
  lemma RulesInForceAreInstalled(es: seq<Entry>, base: string, rules: map<string, Rule>, chs: seq<Change>)
    requires forall q :: q in rules ==> Uncut(rules[q])
    requires forall q, r :: q in rules && r in rules && q != r ==>
               rules[q].resource != rules[r].resource || rules[q].identityHash != rules[r].identityHash
    requires Pick(es, OwnNames(EntriesOf(base, rules))) == []
    requires forall ch :: ch in chs ==> ch.quota in rules
    ensures var own := EntriesOf(base, rules);
            var now := ApplyAll(es, own, chs);
            && Drop(now, OwnNames(own)) == Drop(es, OwnNames(own))
            && forall q :: q in rules ==>
                 Pick(now, {EntryName(rules[q].resource, rules[q].identityHash)})
                 == if q in InForce(chs) then [EntryFor(base, rules[q])] else []
  {
    var own := EntriesOf(base, rules);
    forall q, r | q in own && r in own && own[q].name == own[r].name ensures q == r {
      EntryNamesInjective(rules[q].resource, rules[q].identityHash, rules[r].resource, rules[r].identityHash);
    }
    EntriesFollowQuotas(es, own, chs);
    forall q | q in rules
      ensures own[q] == EntryFor(base, rules[q])
              && own[q].name == EntryName(rules[q].resource, rules[q].identityHash)
    {
    }
  }

  ghost predicate Among(own: map<string, Entry>, chs: seq<Change>) {
    forall ch :: ch in chs ==> ch.quota in own
  }

  ghost predicate Follows(own: map<string, Entry>, chs: seq<Change>)
    requires Among(own, chs)
  {
    forall q :: q in own ==>
      Pick(ApplyAll([], own, chs), {own[q].name}) == if q in InForce(chs) then [own[q]] else []
  }

  /** Distinct names are exactly what it takes for the configuration to follow the quotas in every run. */
  lemma FollowsExactlyWhenDistinct(own: map<string, Entry>)
    ensures NamesDistinct(own)
            <==> forall chs: seq<Change> :: Among(own, chs) ==> Follows(own, chs)
  {
    if NamesDistinct(own) {
      forall chs: seq<Change> | Among(own, chs) ensures Follows(own, chs) {
        EntriesFollowQuotas([], own, chs);
      }
    } else {
      var q, r :| q in own && r in own && own[q].name == own[r].name && q != r;
      var chs := [Installed(q), Installed(r), Removed(r)];
      SharedNameIsRemoved(own, q, r);
      assert Pick([], {own[q].name}) == [];
      assert !Follows(own, chs);
    }
  }
}
