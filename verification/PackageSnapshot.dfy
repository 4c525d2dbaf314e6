/** Putting the tenants' artifact lists of one package together into a snapshot. */
module PackageSnapshot {
  import opened Strings
  import opened VersionCompare

  /** One line of a tenant's list, with the runtime the tenant reports for it. */
  datatype Listed = Listed(id: string, name: string, kind: string, info: VersionInfo)

  /** A tenant that could not be asked lists nothing. */
  datatype Listing = Listing(tenant: nat, artifacts: seq<Listed>)

  /** The lines in the order they are met. */
  function Lines(listings: seq<Listing>): seq<(nat, Listed)> {
    if listings == [] then []
    else Lines(listings[..|listings| - 1]) + Tagged(listings[|listings| - 1])
  }

  function Tagged(l: Listing): (r: seq<(nat, Listed)>)
    ensures |r| == |l.artifacts| && forall i | 0 <= i < |r| :: r[i] == (l.tenant, l.artifacts[i])
  {
    seq(|l.artifacts|, i requires 0 <= i < |l.artifacts| => (l.tenant, l.artifacts[i]))
  }

  /** What the last line of this tenant about this artifact says. */
  function LastSaid(lines: seq<(nat, Listed)>, tenant: nat, id: string): Option<VersionInfo> {
    if lines == [] then None
    else
      var last := lines[|lines| - 1];
      if last.0 == tenant && last.1.id == id then Some(last.1.info) else LastSaid(lines[..|lines| - 1], tenant, id)
  }

  /** Ids in the order they are first met. */
  function Discovered(lines: seq<(nat, Listed)>): seq<string> {
    if lines == [] then []
    else
      var before := Discovered(lines[..|lines| - 1]);
      var id := lines[|lines| - 1].1.id;
      if id in before then before else before + [id]
  }

  lemma {:induction false} DiscoveredOnce(lines: seq<(nat, Listed)>)
    ensures forall i, j | 0 <= i < j < |Discovered(lines)| :: Discovered(lines)[i] != Discovered(lines)[j]
    ensures forall id :: id in Discovered(lines) <==> exists l :: l in lines && l.1.id == id
  {
    if lines != [] {
      DiscoveredOnce(lines[..|lines| - 1]);
      assert lines == lines[..|lines| - 1] + [lines[|lines| - 1]];
      var before := Discovered(lines[..|lines| - 1]);
      var last := lines[|lines| - 1];
      forall id ensures id in Discovered(lines) <==> exists l :: l in lines && l.1.id == id {
        if id == last.1.id { assert last in lines; }
        if id in before { var l :| l in lines[..|lines| - 1] && l.1.id == id; assert l in lines; }
      }
    }
  }

  /** The map under construction and its key order say what the lines so far say. */
  ghost predicate Says(artifacts: map<string, Artifact>, order: seq<string>, lines: seq<(nat, Listed)>) {
    && order == Discovered(lines)
    && (forall id :: id in artifacts <==> id in order)
    && (forall id | id in artifacts :: artifacts[id].id == id)
    && (forall id, t | id in artifacts ::
          LastSaid(lines, t, id) == if t in artifacts[id].versions then Some(artifacts[id].versions[t]) else None)
  }

  lemma {:induction false} UnknownSaysNothing(lines: seq<(nat, Listed)>, tenant: nat, id: string)
    requires id !in Discovered(lines)
    ensures LastSaid(lines, tenant, id).None?
  {
    if lines != [] { UnknownSaysNothing(lines[..|lines| - 1], tenant, id); }
  }

  function WithLine(artifacts: map<string, Artifact>, tenant: nat, l: Listed): map<string, Artifact> {
    var art := if l.id in artifacts then artifacts[l.id] else Artifact(l.id, l.name, l.kind, map[]);
    artifacts[l.id := art.(versions := art.versions[tenant := l.info])]
  }

  lemma OneLine(artifacts: map<string, Artifact>, order: seq<string>, lines: seq<(nat, Listed)>, tenant: nat, l: Listed)
    requires Says(artifacts, order, lines)
    ensures Says(WithLine(artifacts, tenant, l), if l.id in order then order else order + [l.id], lines + [(tenant, l)])
  {
    var longer := lines + [(tenant, l)];
    assert longer[..|longer| - 1] == lines;
    var next := WithLine(artifacts, tenant, l);
    forall id, t: nat | id in next
      ensures LastSaid(longer, t, id) == if t in next[id].versions then Some(next[id].versions[t]) else None {
      if l.id !in artifacts { UnknownSaysNothing(lines, t, l.id); }
      assert LastSaid(longer, t, id) == if t == tenant && id == l.id then Some(l.info) else LastSaid(lines, t, id);
    }
  }

  /** Every artifact some tenant lists, once, in the order of discovery, with exactly the tenants that list it. */
  method CollectPackageSnapshot(id: string, listings: seq<Listing>) returns (pkg: Package)
    ensures pkg.id == id
    ensures |pkg.artifacts| == |Discovered(Lines(listings))|
    ensures forall i | 0 <= i < |pkg.artifacts| :: pkg.artifacts[i].id == Discovered(Lines(listings))[i]
    ensures forall a, t | a in pkg.artifacts :: LastSaid(Lines(listings), t, a.id) == if t in a.versions then Some(a.versions[t]) else None
  {
    var artifactMap: map<string, Artifact> := map[];
    var artifactOrder: seq<string> := [];
    hide LastSaid, Discovered;
    StartSays();
    hide Says;
    for r := 0 to |listings|
      invariant Says(artifactMap, artifactOrder, Lines(listings[..r]))
    {
      var result := listings[r];
      ghost var before := Lines(listings[..r]);
      assert listings[..r + 1][..r] == listings[..r];
      assert before + Tagged(result)[..0] == before;
      for i := 0 to |result.artifacts|
        invariant Says(artifactMap, artifactOrder, before + Tagged(result)[..i])
      {
        var art := result.artifacts[i];
        OneLine(artifactMap, artifactOrder, before + Tagged(result)[..i], result.tenant, art);
        assert before + Tagged(result)[..i + 1] == before + Tagged(result)[..i] + [(result.tenant, art)];
        artifactMap := WithLine(artifactMap, result.tenant, art);
        if art.id !in artifactOrder { artifactOrder := artifactOrder + [art.id]; }
      }
      assert Tagged(result)[..|result.artifacts|] == Tagged(result);
    }
    assert listings[..|listings|] == listings;
    var artifacts := InOrder(artifactMap, artifactOrder, Lines(listings));
    return Package(id, artifacts);
  }

  lemma StartSays()
    ensures Says(map[], [], [])
  {
  }

  method InOrder(artifacts: map<string, Artifact>, order: seq<string>, ghost lines: seq<(nat, Listed)>) returns (r: seq<Artifact>)
    requires Says(artifacts, order, lines)
    ensures |r| == |Discovered(lines)| && forall i | 0 <= i < |r| :: r[i].id == Discovered(lines)[i]
    ensures forall a, t | a in r :: LastSaid(lines, t, a.id) == if t in a.versions then Some(a.versions[t]) else None
  {
    r := [];
    for i := 0 to |order|
      invariant |r| == i && forall j | 0 <= j < i :: order[j] in artifacts && r[j] == artifacts[order[j]]
    {
      assert order[i] in order;
      r := r + [artifacts[order[i]]];
    }
  }
}
