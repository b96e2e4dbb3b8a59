/**
 The strings two sides must agree on: reservation keys, the names of webhook entries, and the path that
 the installer prints and the dispatcher parses.
 */
module KeysAndNames {

  datatype Option<+T> = None | Some(value: T)

  predicate Without(s: string, c: char) {
    c !in s
  }

  // ---- reservation keys ----

  function ObjectKey(namespace: string, name: string): string {
    if namespace == "" then name else namespace + "/" + name
  }

  function RequestKey(namespace: string, name: string, uid: string): string {
    if name == "" then "uid:" + uid else ObjectKey(namespace, name)
  }

  /** Concatenations around one separator agree only when their parts do. */
  lemma SplitUnique(a: string, b: string, x: string, y: string, c: char)
    requires Without(a, c) && Without(x, c)
    requires a + [c] + b == x + [c] + y
    ensures a == x && b == y
  {
    var s, t := a + [c] + b, x + [c] + y;
    assert s[|a|] == c && t[|x|] == c;
    assert forall i :: 0 <= i < |a| ==> s[i] == a[i] && a[i] in a;
    assert forall i :: 0 <= i < |x| ==> t[i] == x[i] && x[i] in x;
    assert |a| == |x|;
    assert a == s[..|a|] && x == t[..|x|];
    assert b == s[|a| + 1..] && y == t[|x| + 1..];
  }

  lemma SlashMeansNamespace(namespace: string, name: string)
    requires Without(namespace, '/') && Without(name, '/')
    ensures '/' in ObjectKey(namespace, name) <==> namespace != ""
  {
    if namespace != "" {
      assert ObjectKey(namespace, name)[|namespace|] == '/';
    }
  }

  /** Distinct objects have distinct keys, namespaced or not. */
  lemma ObjectKeyInjective(namespace: string, name: string, namespace': string, name': string)
    requires Without(namespace, '/') && Without(name, '/')
    requires Without(namespace', '/') && Without(name', '/')
    requires ObjectKey(namespace, name) == ObjectKey(namespace', name')
    ensures namespace == namespace' && name == name'
  {
    SlashMeansNamespace(namespace, name);
    SlashMeansNamespace(namespace', name');
    if namespace != "" {
      assert namespace + ['/'] + name == namespace' + ['/'] + name';
      SplitUnique(namespace, name, namespace', name', '/');
    }
  }

  /** A key of a named object is never the key of a generateName request, and the other way round. */
  lemma RequestKeyTellsApart(namespace: string, name: string, uid: string)
    requires Without(namespace, ':') && Without(name, ':')
    ensures "uid:" <= RequestKey(namespace, name, uid) <==> name == ""
  {
    var key := RequestKey(namespace, name, uid);
    if "uid:" <= key {
      assert key[3] == ':';
    }
  }

  /** No more than letters, digits, dashes and dots, as far as keys are concerned. */
  predicate Plain(s: string) {
    Without(s, '/') && Without(s, ':')
  }

  /** Requests share a key exactly when they are for one named object, or are one nameless request. */
  lemma RequestKeysAgree(
    namespace: string, name: string, uid: string, namespace': string, name': string, uid': string)
    requires Plain(namespace) && Plain(name) && Plain(namespace') && Plain(name')
    ensures RequestKey(namespace, name, uid) == RequestKey(namespace', name', uid')
            <==> if name == "" || name' == "" then name == name' && uid == uid'
                 else namespace == namespace' && name == name'
  {
    RequestKeyTellsApart(namespace, name, uid);
    RequestKeyTellsApart(namespace', name', uid');
    if name == "" && name' == "" && "uid:" + uid == "uid:" + uid' {
      assert uid == ("uid:" + uid)[4..] == ("uid:" + uid')[4..] == uid';
    }
    if name != "" && name' != "" && ObjectKey(namespace, name) == ObjectKey(namespace', name') {
      ObjectKeyInjective(namespace, name, namespace', name');
    }
  }

  /** A named request reserves under the key that its object is listed by. */
  lemma RequestKeyIsListed(namespace: string, name: string, uid: string)
    requires name != ""
    ensures ListedKeys([(namespace, name)]) == [RequestKey(namespace, name, uid)]
  {
  }

  function ListedKeys(objs: seq<(string, string)>): seq<string> {
    seq(|objs|, i requires 0 <= i < |objs| => ObjectKey(objs[i].0, objs[i].1))
  }

  /** The number of listed keys is the number of distinct keys, so a fold counts each object once. */
  lemma {:induction false} ListingCounts(objs: seq<(string, string)>)
    requires forall i :: 0 <= i < |objs| ==> Without(objs[i].0, '/') && Without(objs[i].1, '/')
    requires forall i, j :: 0 <= i < j < |objs| ==> objs[i] != objs[j]
    ensures |set k | k in ListedKeys(objs)| == |objs|
  {
    if objs != [] {
      var init, last := objs[..|objs| - 1], objs[|objs| - 1];
      ListingCounts(init);
      var keys, key := ListedKeys(init), ObjectKey(last.0, last.1);
      assert ListedKeys(objs) == keys + [key];
      forall k | k in keys ensures k != key {
        var i :| 0 <= i < |keys| && keys[i] == k;
        assert objs[i] == init[i] && objs[i] != objs[|objs| - 1];
        if ObjectKey(init[i].0, init[i].1) == ObjectKey(last.0, last.1) {
          ObjectKeyInjective(init[i].0, init[i].1, last.0, last.1);
        }
      }
      assert (set k | k in ListedKeys(objs)) == (set k | k in keys) + {key};
    }
  }

  /** A key reads back as the object's namespace, if it has one, and name. */
  lemma ObjectKeyReadsBack(namespace: string, name: string)
    requires Without(namespace, '/') && Without(name, '/')
    ensures Split(ObjectKey(namespace, name), '/') == if namespace == "" then [name] else [namespace, name]
  {
    SplitOnePiece(name, '/');
    if namespace != "" {
      assert ObjectKey(namespace, name) == namespace + ['/'] + name;
      SplitFirst(namespace, name, '/');
    }
  }

  // ---- webhook entry names ----

  function Truncated(s: string, n: nat): string {
    if |s| > n then s[..n] else s
  }

  /** The first label of the entry's DNS name. */
  function EntryLabel(resource: string, identityHash: string): string {
    Truncated(resource, 30) + "-" + Truncated(identityHash, 32)
  }

  function EntryName(resource: string, identityHash: string): string {
    EntryLabel(resource, identityHash) + ".quota.opendefense.cloud"
  }

  /** Section 2.3.4 of RFC 1035: a label has at most 63 octets. */
  lemma EntryLabelFits(resource: string, identityHash: string)
    ensures |EntryLabel(resource, identityHash)| <= 63
  {
  }

  lemma SplitFour(a: string, b: string, c: string, d: string, sep: char)
    requires Without(a, sep) && Without(b, sep) && Without(c, sep) && Without(d, sep)
    ensures Split(a + [sep] + (b + [sep] + (c + [sep] + d)), sep) == [a, b, c, d]
  {
    SplitFirst(a, b + [sep] + (c + [sep] + d), sep);
    SplitFirst(b, c + [sep] + d, sep);
    SplitFirst(c, d, sep);
    SplitOnePiece(d, sep);
  }

  lemma DomainParts(first: string)
    ensures first + ".quota.opendefense.cloud" == first + ['.'] + ("quota" + ['.'] + ("opendefense" + ['.'] + "cloud"))
  {
  }

  /** The name is a qualified DNS name: the label, then the domain. */
  lemma EntryNameIsQualified(resource: string, identityHash: string)
    requires Without(resource, '.') && Without(identityHash, '.')
    ensures Split(EntryName(resource, identityHash), '.')
            == [EntryLabel(resource, identityHash), "quota", "opendefense", "cloud"]
    ensures |resource| <= 30 && |identityHash| <= 32 ==>
              EntryLabel(resource, identityHash) == resource + "-" + identityHash
  {
    var first := EntryLabel(resource, identityHash);
    assert Without(Truncated(resource, 30), '.') && Without(Truncated(identityHash, 32), '.');
    DomainParts(first);
    SplitFour(first, "quota", "opendefense", "cloud", '.');
  }

  lemma LastDashUnique(a: string, b: string, x: string, y: string)
    requires Without(b, '-') && Without(y, '-')
    requires a + "-" + b == x + "-" + y
    ensures a == x && b == y
  {
    var s, t := a + "-" + b, x + "-" + y;
    assert s[|a|] == '-' && t[|x|] == '-';
    assert forall i :: |a| < i < |s| ==> s[i] == b[i - |a| - 1] && b[i - |a| - 1] in b;
    assert forall i :: |x| < i < |t| ==> t[i] == y[i - |x| - 1] && y[i - |x| - 1] in y;
    assert |a| == |x|;
    assert a == s[..|a|] && x == t[..|x|];
    assert b == s[|a| + 1..] && y == t[|x| + 1..];
  }

  /** Two entries share a name exactly when their truncated resources and hashes agree. */
  lemma EntryNamesCollide(resource: string, id: string, resource': string, id': string)
    requires Without(id, '-') && Without(id', '-')
    ensures EntryName(resource, id) == EntryName(resource', id')
            <==> Truncated(resource, 30) == Truncated(resource', 30) && Truncated(id, 32) == Truncated(id', 32)
  {
    var suffix := ".quota.opendefense.cloud";
    var a, b := EntryLabel(resource, id), EntryLabel(resource', id');
    if EntryName(resource, id) == EntryName(resource', id') {
      assert |a| == |b|;
      assert a == (a + suffix)[..|a|] == (b + suffix)[..|a|] == b;
      LastDashUnique(Truncated(resource, 30), Truncated(id, 32), Truncated(resource', 30), Truncated(id', 32));
    }
  }

  /** Entry names are injective for resources of at most 30 and hashes of at most 32 characters. */
  lemma EntryNamesInjective(resource: string, id: string, resource': string, id': string)
    requires Without(id, '-') && Without(id', '-')
    requires |resource| <= 30 && |resource'| <= 30 && |id| <= 32 && |id'| <= 32
    requires EntryName(resource, id) == EntryName(resource', id')
    ensures resource == resource' && id == id'
  {
    EntryNamesCollide(resource, id, resource', id');
  }

  // ---- the validate path ----

  datatype ResourceRef = ResourceRef(group: string, resource: string, identityHash: string)

  const PREFIX := "/validate/"

  /** The path part of webhookURL. */
  function ValidatePath(ref: ResourceRef): string {
    PREFIX + ref.group + "/" + ref.resource + "/" + ref.identityHash
  }

  /** strings.Split: the pieces between separators; always at least one. */
  function Split(s: string, sep: char): (parts: seq<string>)
    ensures parts != []
  {
    if s == "" then [""]
    else
      var rest := Split(s[1..], sep);
      if s[0] == sep then [""] + rest else [[s[0]] + rest[0]] + rest[1..]
  }

  function Join(parts: seq<string>, sep: char): string
    requires parts != []
  {
    if |parts| == 1 then parts[0] else parts[0] + [sep] + Join(parts[1..], sep)
  }

  lemma {:induction false} JoinSplit(s: string, sep: char)
    ensures Join(Split(s, sep), sep) == s
  {
    if s != "" {
      JoinSplit(s[1..], sep);
      var rest, parts := Split(s[1..], sep), Split(s, sep);
      if s[0] == sep {
        assert parts[1..] == rest;
        assert Join(parts, sep) == [sep] + s[1..];
      } else {
        assert parts[1..] == rest[1..];
        assert Join(parts, sep) == [s[0]] + s[1..];
      }
    }
  }

  lemma {:induction false} SplitPieces(s: string, sep: char)
    ensures forall part :: part in Split(s, sep) ==> sep !in part
  {
    if s != "" {
      SplitPieces(s[1..], sep);
      var rest := Split(s[1..], sep);
      assert rest[0] in rest;
      assert forall part :: part in rest[1..] ==> part in rest;
    }
  }

  lemma {:induction false} SplitOnePiece(s: string, sep: char)
    requires sep !in s
    ensures Split(s, sep) == [s]
  {
    if s != "" {
      assert forall c :: c in s[1..] ==> c in s;
      SplitOnePiece(s[1..], sep);
      assert s[0] in s;
      assert [s[0]] + s[1..] == s && [s[1..]][1..] == [];
    }
  }

  lemma {:induction false} SplitFirst(a: string, s: string, sep: char)
    requires sep !in a
    ensures Split(a + [sep] + s, sep) == [a] + Split(s, sep)
  {
    var t := a + [sep] + s;
    if a == "" {
      assert t[1..] == s;
    } else {
      assert t[0] == a[0] && t[1..] == a[1..] + [sep] + s;
      assert forall c :: c in a[1..] ==> c in a;
      SplitFirst(a[1..], s, sep);
      var rest := [a[1..]] + Split(s, sep);
      assert a[0] in a;
      assert rest == Split(t[1..], sep);
      assert rest[1..] == Split(s, sep) && [a[0]] + rest[0] == a;
    }
  }

  lemma JoinThree(parts: seq<string>, sep: char)
    requires |parts| == 3
    ensures Join(parts, sep) == parts[0] + [sep] + (parts[1] + [sep] + parts[2])
  {
    var two := parts[1..];
    assert two[1..] == [parts[2]] && Join([parts[2]], sep) == parts[2];
    assert Join(two, sep) == parts[1] + [sep] + parts[2];
  }

  function ParseValidatePath(path: string): Option<ResourceRef> {
    if !(PREFIX <= path) then None
    else
      var parts := Split(path[|PREFIX|..], '/');
      if |parts| != 3 then None
      else if parts[1] == "" || parts[2] == "" then None
      else Some(ResourceRef(parts[0], parts[1], parts[2]))
  }

  /** The references that have a path of their own. */
  predicate Addressable(ref: ResourceRef) {
    && Without(ref.group, '/') && Without(ref.resource, '/') && Without(ref.identityHash, '/')
    && ref.resource != "" && ref.identityHash != ""
  }

  lemma PathParts(group: string, resource: string, identityHash: string)
    ensures ValidatePath(ResourceRef(group, resource, identityHash))
            == PREFIX + (group + ['/'] + (resource + ['/'] + identityHash))
  {
  }

  /** The segments of the path are the group, the resource and the hash, in this order. */
  lemma SegmentsParse(group: string, resource: string, identityHash: string)
    requires Addressable(ResourceRef(group, resource, identityHash))
    ensures ParseValidatePath("/validate/" + group + "/" + resource + "/" + identityHash)
            == Some(ResourceRef(group, resource, identityHash))
  {
    var path := "/validate/" + group + "/" + resource + "/" + identityHash;
    var tail := group + ['/'] + (resource + ['/'] + identityHash);
    assert path == PREFIX + tail && path[|PREFIX|..] == tail;
    SplitFirst(group, resource + ['/'] + identityHash, '/');
    SplitFirst(resource, identityHash, '/');
    SplitOnePiece(identityHash, '/');
  }

  /** What the parser accepts prints back to the path it came from. */
  lemma ParsedPathReprints(path: string)
    requires ParseValidatePath(path).Some?
    ensures ValidatePath(ParseValidatePath(path).value) == path
    ensures Addressable(ParseValidatePath(path).value)
  {
    var tail := path[|PREFIX|..];
    var parts := Split(tail, '/');
    JoinSplit(tail, '/');
    SplitPieces(tail, '/');
    assert parts[0] in parts && parts[1] in parts && parts[2] in parts;
    JoinThree(parts, '/');
    assert path == PREFIX + tail;
    PathParts(parts[0], parts[1], parts[2]);
  }

  /** The parser inverts the printer exactly on the addressable references. */
  lemma PrintedPathParses(ref: ResourceRef)
    ensures ParseValidatePath(ValidatePath(ref)) == Some(ref) <==> Addressable(ref)
  {
    var path := ValidatePath(ref);
    if Addressable(ref) {
      var tail := ref.group + ['/'] + (ref.resource + ['/'] + ref.identityHash);
      PathParts(ref.group, ref.resource, ref.identityHash);
      assert path[|PREFIX|..] == tail;
      SplitFirst(ref.group, ref.resource + ['/'] + ref.identityHash, '/');
      SplitFirst(ref.resource, ref.identityHash, '/');
      SplitOnePiece(ref.identityHash, '/');
    } else if ParseValidatePath(path) == Some(ref) {
      ParsedPathReprints(path);
    }
  }
}
