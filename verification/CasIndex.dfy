/** Finding the export ids of a batch of artifacts in the catalog of the content agent. */
module CasIndex {
  import opened Strings

  datatype Component = Component(id: string, name: string, exportable: bool)

  datatype Resource = Resource(id: string, resourceId: string, subType: string, name: string, version: string, components: seq<Component>)

  /** What an operation caches of the catalog; an empty guid means not yet. */
  datatype Cache = Cache(guid: string, packageResource: string, exportable: bool, packageName: string, packageVersion: string)

  datatype Artifact = Artifact(packageId: string, name: string, cache: Cache)

  function Key(packageId: string, name: string): string { packageId + "::" + name }

  function KeyOf(a: Artifact): string { Key(a.packageId, a.name) }

  function CacheOf(res: Resource, comp: Component): Cache {
    Cache(comp.id, res.resourceId, comp.exportable, res.name, res.version)
  }

  /** The packages' components under their keys, in catalog order. */
  function Entries(catalog: seq<Resource>): seq<(string, Cache)> {
    if catalog == [] then [] else Entries(catalog[..|catalog| - 1]) + EntriesOf(catalog[|catalog| - 1])
  }

  function EntriesOf(res: Resource): (r: seq<(string, Cache)>)
    ensures res.subType != "package" ==> r == []
    ensures res.subType == "package" ==> |r| == |res.components|
    ensures forall i | 0 <= i < |r| :: i < |res.components| && r[i] == (Key(res.id, res.components[i].name), CacheOf(res, res.components[i]))
  {
    if res.subType != "package" then []
    else seq(|res.components|, i requires 0 <= i < |res.components| => (Key(res.id, res.components[i].name), CacheOf(res, res.components[i])))
  }

  /** The entries under one key. */
  function Under(entries: seq<(string, Cache)>, key: string): seq<Cache> {
    if entries == [] then []
    else
      var last := entries[|entries| - 1];
      Under(entries[..|entries| - 1], key) + (if last.0 == key then [last.1] else [])
  }

  lemma UnderOneMore(entries: seq<(string, Cache)>, e: (string, Cache), key: string)
    ensures Under(entries + [e], key) == Under(entries, key) + (if e.0 == key then [e.1] else [])
  {
    assert (entries + [e])[..|entries|] == entries;
  }

  lemma {:induction false} UnderGrows(entries: seq<(string, Cache)>, more: seq<(string, Cache)>, key: string)
    ensures Under(entries, key) <= Under(entries + more, key)
  {
    if more == [] {
      assert entries + more == entries;
    } else {
      UnderGrows(entries, more[..|more| - 1], key);
      assert entries + more == (entries + more[..|more| - 1]) + [more[|more| - 1]];
      UnderOneMore(entries + more[..|more| - 1], more[|more| - 1], key);
    }
  }

  /** Every needed key met so far has one entry and is indexed with it. */
  ghost predicate Indexes(index: map<string, Cache>, needed: set<string>, entries: seq<(string, Cache)>) {
    forall key :: Under(entries, key) == if key in index then [index[key]] else if key in needed then [] else Under(entries, key)
  }

  lemma IndexStep(index: map<string, Cache>, needed: set<string>, entries: seq<(string, Cache)>, e: (string, Cache))
    requires Indexes(index, needed, entries) && index.Keys <= needed
    ensures e.0 !in needed ==> Indexes(index, needed, entries + [e])
    ensures e.0 in needed && e.0 !in index ==> Indexes(index[e.0 := e.1], needed, entries + [e])
    ensures e.0 in index ==> Under(entries + [e], e.0) == [index[e.0], e.1]
  {
    forall k ensures Under(entries + [e], k) == Under(entries, k) + (if e.0 == k then [e.1] else []) { UnderOneMore(entries, e, k); }
    hide Under;
  }

  /** An index of the needed entries, or None when some needed key has more than one. */
  method BuildIndex(catalog: seq<Resource>, needed: set<string>) returns (index: Option<map<string, Cache>>)
    ensures index.Some? ==> index.value.Keys <= needed && Indexes(index.value, needed, Entries(catalog))
    ensures index.None? ==> exists key :: key in needed && |Under(Entries(catalog), key)| > 1
  {
    var found: map<string, Cache> := map[];
    StartIndexes(needed);
    hide Under, Indexes, Key, CacheOf;
    for r := 0 to |catalog|
      invariant Indexes(found, needed, Entries(catalog[..r])) && found.Keys <= needed
    {
      var res := catalog[r];
      ghost var before := Entries(catalog[..r]);
      ghost var more := EntriesOf(res);
      assert catalog[..r + 1][..r] == catalog[..r];
      if res.subType != "package" {
        assert before + more == before;
        continue;
      }
      assert before + more[..0] == before;
      for i := 0 to |res.components|
        invariant Indexes(found, needed, before + more[..i]) && found.Keys <= needed
      {
        var comp := res.components[i];
        var key := Key(res.id, comp.name);
        assert before + more[..i + 1] == before + more[..i] + [more[i]];
        IndexStep(found, needed, before + more[..i], more[i]);
        if key !in needed { continue; }
        if key in found {
          Ambiguous(catalog, r, i, key);
          return None;
        }
        found := found[key := CacheOf(res, comp)];
      }
      assert more[..|res.components|] == more;
    }
    assert catalog[..|catalog|] == catalog;
    return Some(found);
  }

  lemma StartIndexes(needed: set<string>)
    ensures Indexes(map[], needed, [])
  {
  }

  lemma {:induction false} EntriesGrow(catalog: seq<Resource>, r: nat) returns (more: seq<(string, Cache)>)
    requires r <= |catalog|
    ensures Entries(catalog) == Entries(catalog[..r]) + more
  {
    hide EntriesOf;
    if r == |catalog| {
      more := [];
      assert catalog[..r] == catalog;
    } else {
      var n := |catalog| - 1;
      var rest := EntriesGrow(catalog[..n], r);
      assert catalog[..n][..r] == catalog[..r];
      more := rest + EntriesOf(catalog[n]);
    }
  }

  lemma SplitAt<T>(a: seq<T>, e: seq<T>, more: seq<T>, i: nat)
    requires i < |e|
    ensures a + e + more == (a + e[..i] + [e[i]]) + (e[i + 1..] + more)
  {
    assert e == e[..i] + [e[i]] + e[i + 1..];
  }

  lemma Ambiguous(catalog: seq<Resource>, r: nat, i: nat, key: string)
    requires r < |catalog| && i < |EntriesOf(catalog[r])|
    requires |Under(Entries(catalog[..r]) + EntriesOf(catalog[r])[..i] + [EntriesOf(catalog[r])[i]], key)| > 1
    ensures |Under(Entries(catalog), key)| > 1
  {
    hide Under, EntriesOf;
    var before, e := Entries(catalog[..r]), EntriesOf(catalog[r]);
    assert catalog[..r + 1][..r] == catalog[..r];
    assert Entries(catalog[..r + 1]) == before + e;
    var more := EntriesGrow(catalog, r + 1);
    hide Entries;
    SplitAt(before, e, more, i);
    UnderGrows(before + e[..i] + [e[i]], e[i + 1..] + more, key);
  }

  function KeysOf(ops: seq<Artifact>): set<string> {
    set op | op in ops :: KeyOf(op)
  }

  predicate AllCached(ops: seq<Artifact>) {
    forall op | op in ops :: op.cache.guid != ""
  }

  /** Leaves a fully cached batch alone; otherwise every artifact gets what the catalog says of its key, which takes
      exactly one entry for each. */
  method EnsureCasGuids(ops: seq<Artifact>, catalog: seq<Resource>) returns (ok: bool, ops': seq<Artifact>)
    ensures ok <==> AllCached(ops) || forall op | op in ops :: |Under(Entries(catalog), KeyOf(op))| == 1
    ensures |ops'| == |ops| && forall i | 0 <= i < |ops| :: ops'[i].packageId == ops[i].packageId && ops'[i].name == ops[i].name
    ensures AllCached(ops) ==> ops' == ops
    ensures ok && !AllCached(ops) ==> forall i | 0 <= i < |ops| :: Under(Entries(catalog), KeyOf(ops[i])) == [ops'[i].cache]
  {
    ops' := ops;
    var allCached := true;
    for i := 0 to |ops|
      invariant allCached && AllCached(ops[..i])
    {
      if ops[i].cache.guid == "" {
        assert ops[i] in ops;
        allCached := false;
        break;
      }
      assert ops[..i + 1] == ops[..i] + [ops[i]];
    }
    if allCached {
      assert ops[..|ops|] == ops;
      return true, ops;
    }
    var found := BuildIndex(catalog, KeysOf(ops));
    hide Under, Entries, AllCached;
    if found.None? {
      var key :| key in KeysOf(ops) && |Under(Entries(catalog), key)| > 1;
      var op :| op in ops && KeyOf(op) == key;
      return false, ops;
    }
    ok, ops' := FillIn(ops, found.value, Entries(catalog));
  }

  method FillIn(ops: seq<Artifact>, index: map<string, Cache>, ghost entries: seq<(string, Cache)>) returns (ok: bool, ops': seq<Artifact>)
    requires Indexes(index, KeysOf(ops), entries)
    ensures ok <==> forall op | op in ops :: |Under(entries, KeyOf(op))| == 1
    ensures |ops'| == |ops| && forall i | 0 <= i < |ops| :: ops'[i].packageId == ops[i].packageId && ops'[i].name == ops[i].name
    ensures ok ==> forall i | 0 <= i < |ops| :: Under(entries, KeyOf(ops[i])) == [ops'[i].cache]
  {
    hide Under, Key;
    ops' := ops;
    for i := 0 to |ops|
      invariant |ops'| == |ops| && forall j | 0 <= j < |ops| :: ops'[j].packageId == ops[j].packageId && ops'[j].name == ops[j].name
      invariant forall j | 0 <= j < i :: Under(entries, KeyOf(ops[j])) == [ops'[j].cache]
    {
      var key := KeyOf(ops[i]);
      assert ops[i] in ops && key in KeysOf(ops);
      if key !in index {
        assert Under(entries, key) == [];
        return false, ops';
      }
      ops' := ops'[i := ops[i].(cache := index[key])];
    }
    return true, ops';
  }

  function FirstColon(s: string): nat {
    if s == "" || s[0] == ':' then 0 else 1 + FirstColon(s[1..])
  }

  lemma {:induction false} ColonAfter(p: string, rest: string)
    requires ':' !in p && rest != "" && rest[0] == ':'
    ensures FirstColon(p + rest) == |p|
  {
    if p == "" {
      assert p + rest == rest;
    } else {
      assert (p + rest)[1..] == p[1..] + rest;
      ColonAfter(p[1..], rest);
    }
  }

  /** Among packages whose ids contain no colon, keys tell artifacts apart whatever these are called. */
  lemma KeyInjective(p: string, a: string, q: string, b: string)
    requires ':' !in p && ':' !in q && Key(p, a) == Key(q, b)
    ensures p == q && a == b
  {
    assert Key(p, a) == p + ("::" + a) && Key(q, b) == q + ("::" + b);
    ColonAfter(p, "::" + a);
    ColonAfter(q, "::" + b);
    assert p == Key(p, a)[..|p|] && q == Key(q, b)[..|q|];
    assert a == Key(p, a)[|p| + 2..] && b == Key(q, b)[|q| + 2..];
  }

  /** No other package and artifact have this key. */
  ghost predicate OwnKey(packageId: string, name: string) {
    forall p, n | Key(p, n) == Key(packageId, name) :: p == packageId && n == name
  }

  /** The separator stands at position i of a text. */
  predicate SeparatesAt(s: string, i: nat) {
    i + 2 <= |s| && s[i..i + 2] == "::"
  }

  /** A key tells its artifact apart from all others exactly when the separator occurs in it nowhere but where it was
      put. */
  lemma OwnKeyIff(packageId: string, name: string)
    ensures OwnKey(packageId, name) <==> forall i: nat | SeparatesAt(Key(packageId, name), i) :: i == |packageId|
  {
    var key := Key(packageId, name);
    if i: nat :| SeparatesAt(key, i) && i != |packageId| {
      assert Key(key[..i], key[i + 2..]) == key;
    } else {
      forall p, n | Key(p, n) == key ensures p == packageId && n == name {
        assert Key(p, n)[|p|..|p| + 2] == "::";
        assert SeparatesAt(key, |p|);
        assert p == Key(p, n)[..|p|] && packageId == key[..|packageId|];
        assert n == Key(p, n)[|p| + 2..] && name == key[|packageId| + 2..];
      }
    }
  }

  /** In particular when neither name contains a colon. */
  lemma PlainNamesOwnTheirKey(packageId: string, name: string)
    requires ':' !in packageId && ':' !in name
    ensures OwnKey(packageId, name)
  {
    var key := Key(packageId, name);
    forall i: nat | SeparatesAt(key, i) ensures i == |packageId| {
      assert key[i] == key[i..i + 2][0] && key[i + 1] == key[i..i + 2][1];
      assert forall j | 0 <= j < |packageId| :: key[j] == packageId[j];
      assert forall j | 0 <= j < |name| :: key[|packageId| + 2 + j] == name[j];
    }
    OwnKeyIff(packageId, name);
  }
}
