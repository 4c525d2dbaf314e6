/** The views on a version-compare snapshot: the comparison itself, its mismatch-only form, and the counts. */
module VersionCompare {
  import opened Strings

  /** What one tenant has of an artifact. */
  datatype VersionInfo = VersionInfo(designTime: string, runtime: string, runtimeStatus: string,
                                     modifiedBy: string, modifiedAt: string, error: string)

  datatype Artifact = Artifact(id: string, name: string, kind: string, versions: map<nat, VersionInfo>)

  datatype Package = Package(id: string, artifacts: seq<Artifact>)

  datatype Snapshot = Snapshot(source: nat, compared: seq<nat>, packages: seq<Package>)

  datatype Params = Params(designTime: bool, runTime: bool, mismatchOnly: bool, packageIds: seq<string>)

  datatype TenantView = TenantView(designTime: string, draft: bool, designTimeMatch: Option<bool>,
                                   runtime: string, runtimeStatus: string, runtimeMatch: Option<bool>,
                                   modifiedBy: string, modifiedAt: string, error: string)

  datatype ArtifactView = ArtifactView(id: string, name: string, kind: string, versions: map<nat, TenantView>)

  datatype PackageView = PackageView(id: string, artifacts: seq<ArtifactView>)

  function LowerChar(c: char): char {
    if 'A' <= c <= 'Z' then c - 'A' + 'a' else c
  }

  /** strings.EqualFold(version, "active"); none of its letters has a fold outside ASCII. */
  predicate IsDraft(version: string) {
    |version| == 6 && forall i | 0 <= i < 6 :: LowerChar(version[i]) == "active"[i]
  }

  /** Versions with a draft on either side never match. */
  predicate SameDesignTime(a: VersionInfo, b: VersionInfo) {
    a.designTime == b.designTime && !IsDraft(a.designTime) && !IsDraft(b.designTime)
  }

  function ViewOf(art: Artifact, tenant: nat, source: nat, params: Params): TenantView
    requires tenant in art.versions
  {
    var vi := art.versions[tenant];
    var compared := tenant != source && source in art.versions;
    TenantView(
      if params.designTime then vi.designTime else "",
      params.designTime && IsDraft(vi.designTime),
      if params.designTime && compared then Some(SameDesignTime(vi, art.versions[source])) else None,
      if params.runTime then vi.runtime else "",
      if params.runTime then vi.runtimeStatus else "",
      if params.runTime && compared then Some(vi.runtime == art.versions[source].runtime) else None,
      if params.designTime && tenant == source then vi.modifiedBy else "",
      if params.designTime && tenant == source then vi.modifiedAt else "",
      vi.error)
  }

  function ArtifactViewOf(art: Artifact, source: nat, params: Params): ArtifactView {
    ArtifactView(art.id, art.name, art.kind, map t | t in art.versions :: ViewOf(art, t, source, params))
  }

  predicate Mismatched(v: TenantView) {
    v.designTimeMatch == Some(false) || v.runtimeMatch == Some(false)
  }

  /** Some tenant's versions carry a false match flag. */
  predicate HasMismatch(a: ArtifactView) {
    exists t | t in a.versions :: Mismatched(a.versions[t])
  }

  function Views(artifacts: seq<Artifact>, source: nat, params: Params): seq<ArtifactView> {
    if artifacts == [] then []
    else
      var view := ArtifactViewOf(artifacts[|artifacts| - 1], source, params);
      Views(artifacts[..|artifacts| - 1], source, params)
      + (if params.mismatchOnly && !HasMismatch(view) then [] else [view])
  }

  predicate Wanted(params: Params, id: string) {
    params.packageIds == [] || id in params.packageIds
  }

  function Packages(packages: seq<Package>, source: nat, params: Params): seq<PackageView> {
    if packages == [] then []
    else
      var pkg := packages[|packages| - 1];
      var views := Views(pkg.artifacts, source, params);
      Packages(packages[..|packages| - 1], source, params)
      + (if Wanted(params, pkg.id) && (views != [] || !params.mismatchOnly) then [PackageView(pkg.id, views)] else [])
  }

  // ----- The mismatch-only view is a filter of the full one -----

  function OnlyMismatched(views: seq<ArtifactView>): seq<ArtifactView> {
    if views == [] then []
    else
      OnlyMismatched(views[..|views| - 1])
      + (if HasMismatch(views[|views| - 1]) then [views[|views| - 1]] else [])
  }

  /** Keeps the artifacts with a false flag and drops the packages left empty. */
  function Filtered(packages: seq<PackageView>): seq<PackageView> {
    if packages == [] then []
    else
      var pkg := packages[|packages| - 1];
      var kept := OnlyMismatched(pkg.artifacts);
      Filtered(packages[..|packages| - 1]) + (if kept != [] then [PackageView(pkg.id, kept)] else [])
  }

  lemma {:induction false} ViewsFiltered(artifacts: seq<Artifact>, source: nat, params: Params)
    ensures Views(artifacts, source, params.(mismatchOnly := true))
            == OnlyMismatched(Views(artifacts, source, params.(mismatchOnly := false)))
  {
    if artifacts != [] {
      var n := |artifacts| - 1;
      ViewsFiltered(artifacts[..n], source, params);
      var full := Views(artifacts[..n], source, params.(mismatchOnly := false));
      var view := ArtifactViewOf(artifacts[n], source, params);
      assert view == ArtifactViewOf(artifacts[n], source, params.(mismatchOnly := true)) by { FlagIgnored(artifacts[n], source, params, true); }
      assert view == ArtifactViewOf(artifacts[n], source, params.(mismatchOnly := false)) by { FlagIgnored(artifacts[n], source, params, false); }
      assert (full + [view])[..|full|] == full;
    }
  }

  lemma FlagIgnored(art: Artifact, source: nat, params: Params, flag: bool)
    ensures ArtifactViewOf(art, source, params) == ArtifactViewOf(art, source, params.(mismatchOnly := flag))
  {
    var other := params.(mismatchOnly := flag);
    assert (map t | t in art.versions :: ViewOf(art, t, source, params)) == (map t | t in art.versions :: ViewOf(art, t, source, other));
  }

  /** Asking for mismatches only gives exactly what filtering the full answer would. */
  lemma {:induction false} MismatchOnlyIsFilter(packages: seq<Package>, source: nat, params: Params)
    ensures Packages(packages, source, params.(mismatchOnly := true))
            == Filtered(Packages(packages, source, params.(mismatchOnly := false)))
  {
    hide ArtifactViewOf, HasMismatch, Views, OnlyMismatched;
    if packages != [] {
      var n := |packages| - 1;
      MismatchOnlyIsFilter(packages[..n], source, params);
      ViewsFiltered(packages[n].artifacts, source, params);
      var full := Packages(packages[..n], source, params.(mismatchOnly := false));
      var view := PackageView(packages[n].id, Views(packages[n].artifacts, source, params.(mismatchOnly := false)));
      assert (full + [view])[..|full|] == full && full + [] == full;
      assert Packages(packages, source, params.(mismatchOnly := false)) == if Wanted(params, packages[n].id) then full + [view] else full;
      var kept := OnlyMismatched(view.artifacts);
      assert Filtered(full + [view]) == Filtered(full) + (if kept != [] then [PackageView(view.id, kept)] else []);
    }
  }

  // ----- What the response shows -----

  /** A draft is the word active, in capitals, small letters or any mix. */
  lemma IsDraftIff(version: string)
    ensures IsDraft(version) <==> |version| == 6 && forall i | 0 <= i < 6 :: version[i] == "active"[i] || version[i] == "ACTIVE"[i]
  {
  }

  /** The request asks for this package, or for none in particular. */
  predicate AskedFor(params: Params, id: string) {
    |params.packageIds| > 0 ==> exists i :: 0 <= i < |params.packageIds| && params.packageIds[i] == id
  }

  /** What a tenant's entry shows: each view only when it is switched on, matches only for the others and only where the
      source has the artifact, who modified it only for the source. */
  predicate Shows(art: Artifact, tenant: nat, source: nat, params: Params, v: TenantView)
    requires tenant in art.versions
  {
    var vi := art.versions[tenant];
    && v.error == vi.error
    && (params.designTime ==> v.designTime == vi.designTime && (v.draft <==> IsDraft(vi.designTime)))
    && (!params.designTime ==> v.designTime == "" && !v.draft && v.designTimeMatch == None)
    && (params.runTime ==> v.runtime == vi.runtime && v.runtimeStatus == vi.runtimeStatus)
    && (!params.runTime ==> v.runtime == "" && v.runtimeStatus == "" && v.runtimeMatch == None)
    && (tenant == source || source !in art.versions ==> v.designTimeMatch == None && v.runtimeMatch == None)
    && (tenant != source && source in art.versions && params.designTime ==>
          v.designTimeMatch == Some(art.versions[source].designTime == vi.designTime && !IsDraft(vi.designTime)))
    && (tenant != source && source in art.versions && params.runTime ==> v.runtimeMatch == Some(art.versions[source].runtime == vi.runtime))
    && (tenant == source && params.designTime ==> v.modifiedBy == vi.modifiedBy && v.modifiedAt == vi.modifiedAt)
    && (tenant != source || !params.designTime ==> v.modifiedBy == "" && v.modifiedAt == "")
  }

  /** The artifact under its own names, with every tenant that has it. */
  ghost predicate ShowsArtifact(art: Artifact, source: nat, params: Params, view: ArtifactView) {
    && view.id == art.id && view.name == art.name && view.kind == art.kind && view.versions.Keys == art.versions.Keys
    && forall t | t in art.versions :: Shows(art, t, source, params, view.versions[t])
  }

  lemma ArtifactViewShows(art: Artifact, source: nat, params: Params, view: ArtifactView)
    ensures ShowsArtifact(art, source, params, view) <==> view == ArtifactViewOf(art, source, params)
  {
    hide IsDraft;
    var full := ArtifactViewOf(art, source, params);
    if ShowsArtifact(art, source, params, view) {
      forall t | t in art.versions ensures view.versions[t] == full.versions[t] {
        assert Shows(art, t, source, params, view.versions[t]);
      }
      assert view.versions == full.versions;
    }
  }

  /** The view shows some artifact of the package that the request lets through. */
  ghost predicate ShownArtifact(artifacts: seq<Artifact>, source: nat, params: Params, view: ArtifactView) {
    && (exists a :: 0 <= a < |artifacts| && ShowsArtifact(artifacts[a], source, params, view))
    && (params.mismatchOnly ==> HasMismatch(view))
  }

  lemma {:induction false} ViewsShown(artifacts: seq<Artifact>, source: nat, params: Params, view: ArtifactView)
    ensures view in Views(artifacts, source, params) <==> ShownArtifact(artifacts, source, params, view)
  {
    hide ShowsArtifact, HasMismatch, ArtifactViewOf;
    if artifacts != [] {
      var n := |artifacts| - 1;
      ViewsShown(artifacts[..n], source, params, view);
      ArtifactViewShows(artifacts[n], source, params, view);
      if a :| 0 <= a < |artifacts| && ShowsArtifact(artifacts[a], source, params, view) {
        assert a < n ==> artifacts[..n][a] == artifacts[a];
      }
      if a :| 0 <= a < n && ShowsArtifact(artifacts[..n][a], source, params, view) {
        assert artifacts[a] == artifacts[..n][a];
      }
    }
  }

  /** A package of the response is one of the snapshot that the request asks for, with exactly its artifacts that the
      request lets through, and not without any when only mismatches are wanted. */
  ghost predicate ShownPackage(packages: seq<Package>, source: nat, params: Params, shown: PackageView) {
    exists p :: 0 <= p < |packages| && ShownFrom(packages[p], source, params, shown)
  }

  ghost predicate ShownFrom(pkg: Package, source: nat, params: Params, shown: PackageView) {
    && shown.id == pkg.id && AskedFor(params, pkg.id)
    && shown.artifacts == Views(pkg.artifacts, source, params)
    && (forall view :: view in shown.artifacts <==> ShownArtifact(pkg.artifacts, source, params, view))
    && (params.mismatchOnly ==> shown.artifacts != [])
  }

  lemma {:induction false} PackagesShown(packages: seq<Package>, source: nat, params: Params, shown: PackageView)
    ensures shown in Packages(packages, source, params) <==> ShownPackage(packages, source, params, shown)
  {
    hide ShownArtifact, Views;
    if packages != [] {
      var n := |packages| - 1;
      PackagesShown(packages[..n], source, params, shown);
      forall view ensures view in Views(packages[n].artifacts, source, params) <==> ShownArtifact(packages[n].artifacts, source, params, view) {
        ViewsShown(packages[n].artifacts, source, params, view);
      }
      assert AskedFor(params, packages[n].id) <==> Wanted(params, packages[n].id);
      hide AskedFor, Wanted;
      if p :| 0 <= p < |packages| && ShownFrom(packages[p], source, params, shown) {
        assert p < n ==> packages[..n][p] == packages[p];
      }
      if p :| 0 <= p < n && ShownFrom(packages[..n][p], source, params, shown) {
        assert packages[p] == packages[..n][p];
      }
    }
  }

  // ----- The counts -----

  /** How the counts see a mismatch: any version that differs, drafts or not. */
  predicate CountedMismatch(art: Artifact, source: nat)
    requires source in art.versions
  {
    exists t | t in art.versions :: t != source
      && (art.versions[t].designTime != art.versions[source].designTime || art.versions[t].runtime != art.versions[source].runtime)
  }

  /** Some tenant's design-time version does not match the source's, drafts never matching. */
  predicate DesignTimeDiffers(art: Artifact, source: nat)
    requires source in art.versions
  {
    exists t | t in art.versions :: t != source && !SameDesignTime(art.versions[t], art.versions[source])
  }

  predicate RuntimeDiffers(art: Artifact, source: nat)
    requires source in art.versions
  {
    exists t | t in art.versions :: t != source && art.versions[t].runtime != art.versions[source].runtime
  }

  /** Some tenant is compared and either side is a draft. */
  predicate ComparesDraft(art: Artifact, source: nat)
    requires source in art.versions
  {
    exists t | t in art.versions :: t != source && (IsDraft(art.versions[t].designTime) || IsDraft(art.versions[source].designTime))
  }

  lemma MismatchedIff(art: Artifact, t: nat, source: nat, params: Params)
    requires t in art.versions
    ensures Mismatched(ViewOf(art, t, source, params))
            <==> t != source && source in art.versions
                 && ((params.designTime && !SameDesignTime(art.versions[t], art.versions[source]))
                     || (params.runTime && art.versions[t].runtime != art.versions[source].runtime))
  {
    hide SameDesignTime, IsDraft;
  }

  /** An artifact survives the mismatch filter exactly when the source has it and some tenant differs in a view that is
      switched on. */
  lemma SurvivesIff(art: Artifact, source: nat, params: Params)
    ensures HasMismatch(ArtifactViewOf(art, source, params))
            <==> source in art.versions
                 && ((params.designTime && DesignTimeDiffers(art, source)) || (params.runTime && RuntimeDiffers(art, source)))
  {
    var view := ArtifactViewOf(art, source, params);
    forall t | t in art.versions
      ensures t in view.versions && view.versions[t] == ViewOf(art, t, source, params)
      ensures Mismatched(view.versions[t])
              <==> t != source && source in art.versions
                   && ((params.designTime && !SameDesignTime(art.versions[t], art.versions[source]))
                       || (params.runTime && art.versions[t].runtime != art.versions[source].runtime))
    {
      MismatchedIff(art, t, source, params);
    }
    assert view.versions.Keys == art.versions.Keys;
    hide SameDesignTime, Mismatched, ViewOf, ArtifactViewOf;
  }

  /** What is counted differs in one of the two; what differs and is not counted compares a draft. */
  lemma CountedIff(art: Artifact, source: nat)
    requires source in art.versions
    ensures DesignTimeDiffers(art, source) || RuntimeDiffers(art, source) <==> CountedMismatch(art, source) || ComparesDraft(art, source)
  {
    hide IsDraft;
    if t :| t in art.versions && t != source
            && (art.versions[t].designTime != art.versions[source].designTime || art.versions[t].runtime != art.versions[source].runtime) {
      assert !SameDesignTime(art.versions[t], art.versions[source]) || art.versions[t].runtime != art.versions[source].runtime;
    }
    if t :| t in art.versions && t != source && (IsDraft(art.versions[t].designTime) || IsDraft(art.versions[source].designTime)) {
      assert !SameDesignTime(art.versions[t], art.versions[source]);
    }
  }

  /** Every artifact that is counted as a mismatch survives the filter of this request. */
  ghost predicate ShowsAllCounted(params: Params) {
    forall art: Artifact, source: nat | source in art.versions && CountedMismatch(art, source) :: HasMismatch(ArtifactViewOf(art, source, params))
  }

  function Info(designTime: string, runtime: string): VersionInfo {
    VersionInfo(designTime, runtime, "", "", "", "")
  }

  /** That is so exactly when the request has both views on: with one of them off, an artifact that differs only in the
      other is counted and dropped. */
  lemma ShowsAllCountedIff(params: Params)
    ensures ShowsAllCounted(params) <==> params.designTime && params.runTime
  {
    if params.designTime && params.runTime {
      forall art: Artifact, source: nat | source in art.versions && CountedMismatch(art, source)
        ensures HasMismatch(ArtifactViewOf(art, source, params))
      {
        SurvivesIff(art, source, params);
        CountedIff(art, source);
      }
    } else {
      var same, other := Info("1.0.0", "1.0.0"), if params.designTime then Info("1.0.0", "2.0.0") else Info("2.0.0", "1.0.0");
      var art := Artifact("a", "a", "flow", map[1 := same, 2 := other]);
      SurvivesIff(art, 1, params);
      assert 2 in art.versions && CountedMismatch(art, 1);
      if params.designTime {
        assert !DesignTimeDiffers(art, 1) by { assert |same.designTime| == 5; }
      } else if params.runTime {
        assert !RuntimeDiffers(art, 1);
      }
    }
  }

  datatype Counts = Counts(matched: nat, mismatched: nat, total: nat)

  function AllArtifacts(packages: seq<Package>): seq<Artifact> {
    if packages == [] then [] else AllArtifacts(packages[..|packages| - 1]) + packages[|packages| - 1].artifacts
  }

  /** How many artifacts the source has no data for. */
  function Unknown(artifacts: seq<Artifact>, source: nat): nat {
    if artifacts == [] then 0
    else Unknown(artifacts[..|artifacts| - 1], source) + if source in artifacts[|artifacts| - 1].versions then 0 else 1
  }

  function Mismatches(artifacts: seq<Artifact>, source: nat): nat {
    if artifacts == [] then 0
    else
      var last := artifacts[|artifacts| - 1];
      Mismatches(artifacts[..|artifacts| - 1], source) + if source in last.versions && CountedMismatch(last, source) then 1 else 0
  }

  lemma {:induction false} OneMore(artifacts: seq<Artifact>, more: seq<Artifact>, i: nat, source: nat)
    requires i < |more|
    ensures Unknown(artifacts + more[..i + 1], source)
            == Unknown(artifacts + more[..i], source) + if source in more[i].versions then 0 else 1
    ensures Mismatches(artifacts + more[..i + 1], source)
            == Mismatches(artifacts + more[..i], source) + if source in more[i].versions && CountedMismatch(more[i], source) then 1 else 0
  {
    var longer := artifacts + more[..i + 1];
    assert longer[..|longer| - 1] == artifacts + more[..i];
  }

  /** matched, mismatched and without source data make up the total. */
  method ComputeMismatchCounts(data: Snapshot) returns (c: Counts)
    ensures c.total == |AllArtifacts(data.packages)|
    ensures c.mismatched == Mismatches(AllArtifacts(data.packages), data.source)
    ensures c.matched + c.mismatched + Unknown(AllArtifacts(data.packages), data.source) == c.total
  {
    var matched, mismatched, total := 0, 0, 0;
    for p := 0 to |data.packages|
      invariant total == |AllArtifacts(data.packages[..p])|
      invariant mismatched == Mismatches(AllArtifacts(data.packages[..p]), data.source)
      invariant matched + mismatched + Unknown(AllArtifacts(data.packages[..p]), data.source) == total
    {
      ghost var before := AllArtifacts(data.packages[..p]);
      var artifacts := data.packages[p].artifacts;
      assert data.packages[..p + 1][..p] == data.packages[..p];
      assert before + artifacts[..0] == before;
      for a := 0 to |artifacts|
        invariant total == |before| + a
        invariant mismatched == Mismatches(before + artifacts[..a], data.source)
        invariant matched + mismatched + Unknown(before + artifacts[..a], data.source) == total
      {
        OneMore(before, artifacts, a, data.source);
        total := total + 1;
        if data.source !in artifacts[a].versions { continue; }
        var artMismatch := DiffersSomewhere(artifacts[a], data.source);
        if artMismatch { mismatched := mismatched + 1; } else { matched := matched + 1; }
      }
      assert artifacts[..|artifacts|] == artifacts;
    }
    assert data.packages[..|data.packages|] == data.packages;
    return Counts(matched, mismatched, total);
  }

  /** The loop over the tenants, in whatever order the map hands them out, stops at the first difference. */
  method DiffersSomewhere(art: Artifact, source: nat) returns (differs: bool)
    requires source in art.versions
    ensures differs <==> CountedMismatch(art, source)
  {
    var todo := art.versions.Keys;
    while todo != {}
      invariant todo <= art.versions.Keys
      invariant forall t | t in art.versions && t !in todo && t != source ::
        art.versions[t].designTime == art.versions[source].designTime && art.versions[t].runtime == art.versions[source].runtime
      decreases todo
    {
      var t :| t in todo;
      todo := todo - {t};
      if t == source { continue; }
      if art.versions[t].designTime != art.versions[source].designTime || art.versions[t].runtime != art.versions[source].runtime {
        return true;
      }
    }
    return false;
  }

  // ----- The response -----

  /** One artifact's view, with the flag the loop over its tenants sets. */
  method BuildArtifact(art: Artifact, source: nat, params: Params) returns (view: ArtifactView, hasMismatch: bool)
    ensures view == ArtifactViewOf(art, source, params) && hasMismatch == HasMismatch(view)
  {
    var versions: map<nat, TenantView> := map[];
    hasMismatch := false;
    var todo := art.versions.Keys;
    while todo != {}
      invariant todo <= art.versions.Keys && versions.Keys == art.versions.Keys - todo
      invariant forall t | t in versions :: versions[t] == ViewOf(art, t, source, params)
      invariant hasMismatch <==> exists t | t in versions :: Mismatched(versions[t])
      decreases todo
    {
      var t :| t in todo;
      todo := todo - {t};
      var vi := art.versions[t];
      var info := TenantView("", false, None, "", "", None, "", "", vi.error);
      ghost var were, had := versions, hasMismatch;
      if params.designTime {
        info := info.(designTime := vi.designTime, draft := IsDraft(vi.designTime));
        if t == source { info := info.(modifiedBy := vi.modifiedBy, modifiedAt := vi.modifiedAt); }
        if t != source && source in art.versions {
          var same := vi.designTime == art.versions[source].designTime
                      && !IsDraft(vi.designTime) && !IsDraft(art.versions[source].designTime);
          info := info.(designTimeMatch := Some(same));
          if !same { hasMismatch := true; }
        }
      }
      if params.runTime {
        info := info.(runtime := vi.runtime, runtimeStatus := vi.runtimeStatus);
        if t != source && source in art.versions {
          var same := vi.runtime == art.versions[source].runtime;
          info := info.(runtimeMatch := Some(same));
          if !same { hasMismatch := true; }
        }
      }
      assert hasMismatch <==> had || Mismatched(info);
      versions := versions[t := info];
      assert forall k | k in were :: versions[k] == were[k];
      assert t in versions;
    }
    view := ArtifactView(art.id, art.name, art.kind, versions);
    assert versions == ArtifactViewOf(art, source, params).versions;
  }

  method BuildPackages(data: Snapshot, params: Params) returns (packages: seq<PackageView>)
    ensures packages == Packages(data.packages, data.source, params)
    ensures forall shown :: shown in packages <==> ShownPackage(data.packages, data.source, params, shown)
  {
    packages := [];
    hide ArtifactViewOf, HasMismatch;
    for p := 0 to |data.packages|
      invariant packages == Packages(data.packages[..p], data.source, params)
    {
      var pkg := data.packages[p];
      assert data.packages[..p + 1][..p] == data.packages[..p];
      if params.packageIds != [] && pkg.id !in params.packageIds { continue; }
      var views: seq<ArtifactView> := [];
      for a := 0 to |pkg.artifacts|
        invariant views == Views(pkg.artifacts[..a], data.source, params)
      {
        assert pkg.artifacts[..a + 1][..a] == pkg.artifacts[..a];
        var view, hasMismatch := BuildArtifact(pkg.artifacts[a], data.source, params);
        if params.mismatchOnly && !hasMismatch { continue; }
        views := views + [view];
      }
      assert pkg.artifacts[..|pkg.artifacts|] == pkg.artifacts;
      if views != [] || !params.mismatchOnly {
        packages := packages + [PackageView(pkg.id, views)];
      }
    }
    assert data.packages[..|data.packages|] == data.packages;
    forall shown ensures shown in packages <==> ShownPackage(data.packages, data.source, params, shown) {
      PackagesShown(data.packages, data.source, params, shown);
    }
  }
}
