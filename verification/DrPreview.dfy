/** The preview of a delivery request made from the mismatches of a snapshot. */
module DrPreview {
  import opened Strings
  import opened VersionCompare

  datatype Category = Draft | VersionPattern | Duplicate | Includable

  datatype Candidate = Candidate(artifactId: string, packageId: string, sourceVersion: string, category: Category, existing: Option<nat>)

  datatype Summary = Summary(total: nat, draft: nat, versionPattern: nat, duplicate: nat, includable: nat)

  /** An active delivery request and the artifacts, with versions, it already delivers. */
  datatype Active = Active(id: nat, ops: seq<(string, string)>)

  /** The request that counts as the existing one: the first that delivers this version of the artifact. */
  function FirstWith(drs: seq<Active>, key: (string, string)): Option<nat> {
    if drs == [] then None
    else if key in drs[0].ops then Some(drs[0].id)
    else FirstWith(drs[1..], key)
  }

  lemma {:induction false} FirstOfMore(drs: seq<Active>, i: nat, key: (string, string))
    requires i < |drs|
    ensures FirstWith(drs[..i + 1], key)
            == if FirstWith(drs[..i], key).Some? then FirstWith(drs[..i], key)
               else if key in drs[i].ops then Some(drs[i].id) else None
    decreases i
  {
    if i > 0 {
      FirstOfMore(drs[1..], i - 1, key);
      assert drs[..i + 1][1..] == drs[1..][..i] && drs[..i][1..] == drs[1..][..i - 1];
    }
  }

  method IndexActive(drs: seq<Active>) returns (existing: map<(string, string), nat>)
    ensures forall key :: FirstWith(drs, key) == if key in existing then Some(existing[key]) else None
  {
    existing := map[];
    for i := 0 to |drs|
      invariant forall key :: FirstWith(drs[..i], key) == if key in existing then Some(existing[key]) else None
    {
      ghost var before := existing;
      var ops := drs[i].ops;
      for o := 0 to |ops|
        invariant forall key :: key in existing <==> key in before || key in ops[..o]
        invariant forall key | key in existing :: existing[key] == if key in before then before[key] else drs[i].id
      {
        assert ops[..o + 1] == ops[..o] + [ops[o]];
        if ops[o] !in existing { existing := existing[ops[o] := drs[i].id]; }
      }
      assert ops[..|ops|] == ops;
      forall key ensures FirstWith(drs[..i + 1], key) == if key in existing then Some(existing[key]) else None {
        FirstOfMore(drs, i, key);
      }
    }
    assert drs[..|drs|] == drs;
  }

  /** A compared tenant lacks the artifact, has another design-time version, or either side is a draft. */
  predicate Differs(art: Artifact, source: nat, target: nat)
    requires source in art.versions
  {
    target !in art.versions || !SameDesignTime(art.versions[target], art.versions[source])
  }

  predicate InPreview(art: Artifact, data: Snapshot) {
    && data.source in art.versions && art.versions[data.source].designTime != ""
    && exists t | t in data.compared :: Differs(art, data.source, t)
  }

  function Classify(art: Artifact, version: string, fitting: set<string>, drs: seq<Active>): Category {
    if IsDraft(version) then Draft
    else if version !in fitting then VersionPattern
    else if FirstWith(drs, (art.id, version)).Some? then Duplicate
    else Includable
  }

  function CandidateFor(art: Artifact, pkg: string, version: string, fitting: set<string>, drs: seq<Active>): Candidate {
    var category := Classify(art, version, fitting, drs);
    Candidate(art.id, pkg, version, category, if category == Duplicate then FirstWith(drs, (art.id, version)) else None)
  }

  function Candidates(artifacts: seq<Artifact>, pkg: string, data: Snapshot, fitting: set<string>, drs: seq<Active>): seq<Candidate> {
    if artifacts == [] then []
    else
      var art := artifacts[|artifacts| - 1];
      Candidates(artifacts[..|artifacts| - 1], pkg, data, fitting, drs)
      + (if InPreview(art, data) then [CandidateFor(art, pkg, art.versions[data.source].designTime, fitting, drs)] else [])
  }

  function AllCandidates(packages: seq<Package>, data: Snapshot, fitting: set<string>, drs: seq<Active>): seq<Candidate> {
    if packages == [] then []
    else
      AllCandidates(packages[..|packages| - 1], data, fitting, drs)
      + Candidates(packages[|packages| - 1].artifacts, packages[|packages| - 1].id, data, fitting, drs)
  }

  // ----- What the preview offers -----

  /** The first of the active requests that deliver this version of the artifact. */
  ghost predicate ExistingIs(drs: seq<Active>, artifactId: string, version: string, id: nat) {
    exists i :: 0 <= i < |drs| && drs[i].id == id && (artifactId, version) in drs[i].ops
                && forall j | 0 <= j < i :: (artifactId, version) !in drs[j].ops
  }

  /** A draft is a draft whatever else it is, then comes the rule's pattern, then what is being delivered already. */
  ghost predicate Classified(x: Candidate, fitting: set<string>, drs: seq<Active>) {
    && (x.category == Draft <==> IsDraft(x.sourceVersion))
    && (x.category == VersionPattern <==> !IsDraft(x.sourceVersion) && x.sourceVersion !in fitting)
    && (x.category == Duplicate <==>
          !IsDraft(x.sourceVersion) && x.sourceVersion in fitting && exists id: nat :: ExistingIs(drs, x.artifactId, x.sourceVersion, id))
    && (if x.category == Duplicate then x.existing.Some? && ExistingIs(drs, x.artifactId, x.sourceVersion, x.existing.value)
        else x.existing == None)
  }

  /** The artifact has a version at the source, and some compared tenant lacks it, has another version, or either side is
      a draft. */
  ghost predicate NeedsDelivery(art: Artifact, data: Snapshot) {
    && data.source in art.versions && art.versions[data.source].designTime != ""
    && exists i :: 0 <= i < |data.compared|
         && (data.compared[i] in art.versions ==>
               || art.versions[data.compared[i]].designTime != art.versions[data.source].designTime
               || IsDraft(art.versions[data.source].designTime))
  }

  ghost predicate Offers(pkg: Package, a: nat, data: Snapshot, fitting: set<string>, drs: seq<Active>, x: Candidate) {
    && a < |pkg.artifacts| && NeedsDelivery(pkg.artifacts[a], data)
    && x.artifactId == pkg.artifacts[a].id && x.packageId == pkg.id
    && x.sourceVersion == pkg.artifacts[a].versions[data.source].designTime
    && Classified(x, fitting, drs)
  }

  ghost predicate Offered(data: Snapshot, fitting: set<string>, drs: seq<Active>, x: Candidate) {
    exists p, a: nat :: 0 <= p < |data.packages| && Offers(data.packages[p], a, data, fitting, drs, x)
  }

  lemma {:induction false} FirstWithIff(drs: seq<Active>, artifactId: string, version: string, id: nat)
    ensures FirstWith(drs, (artifactId, version)) == Some(id) <==> ExistingIs(drs, artifactId, version, id)
  {
    var key := (artifactId, version);
    if drs != [] && key !in drs[0].ops {
      FirstWithIff(drs[1..], artifactId, version, id);
      if i :| 0 <= i < |drs| && drs[i].id == id && key in drs[i].ops && forall j | 0 <= j < i :: key !in drs[j].ops {
        assert drs[1..][i - 1] == drs[i];
        assert forall j | 0 <= j < i - 1 :: drs[1..][j] == drs[j + 1];
      }
      if i :| 0 <= i < |drs[1..]| && drs[1..][i].id == id && key in drs[1..][i].ops && forall j | 0 <= j < i :: key !in drs[1..][j].ops {
        assert drs[i + 1] == drs[1..][i];
        forall j | 0 <= j < i + 1 ensures key !in drs[j].ops { if j > 0 { assert drs[j] == drs[1..][j - 1]; } }
      }
    }
  }

  lemma CandidateClassified(art: Artifact, pkg: string, version: string, fitting: set<string>, drs: seq<Active>, x: Candidate)
    ensures x == CandidateFor(art, pkg, version, fitting, drs)
            <==> x.artifactId == art.id && x.packageId == pkg && x.sourceVersion == version && Classified(x, fitting, drs)
  {
    var found := FirstWith(drs, (art.id, version));
    forall id: nat ensures found == Some(id) <==> ExistingIs(drs, art.id, version, id) { FirstWithIff(drs, art.id, version, id); }
    hide IsDraft, FirstWith, ExistingIs;
  }

  lemma NeedsIff(art: Artifact, data: Snapshot)
    ensures NeedsDelivery(art, data) <==> InPreview(art, data)
  {
    hide IsDraft;
    if InPreview(art, data) {
      var t :| t in data.compared && Differs(art, data.source, t);
      var i :| 0 <= i < |data.compared| && data.compared[i] == t;
      assert data.compared[i] in art.versions ==>
        || art.versions[data.compared[i]].designTime != art.versions[data.source].designTime
        || IsDraft(art.versions[data.source].designTime);
    }
    if NeedsDelivery(art, data) {
      var i :| 0 <= i < |data.compared|
         && (data.compared[i] in art.versions ==>
               || art.versions[data.compared[i]].designTime != art.versions[data.source].designTime
               || IsDraft(art.versions[data.source].designTime));
      assert data.compared[i] in data.compared && Differs(art, data.source, data.compared[i]);
    }
  }

  lemma {:induction false} CandidatesOffered(artifacts: seq<Artifact>, pkg: string, data: Snapshot, fitting: set<string>,
                                               drs: seq<Active>, x: Candidate)
    ensures x in Candidates(artifacts, pkg, data, fitting, drs) <==> exists a: nat :: Offers(Package(pkg, artifacts), a, data, fitting, drs, x)
  {
    if artifacts != [] {
      var n := |artifacts| - 1;
      CandidatesOffered(artifacts[..n], pkg, data, fitting, drs, x);
      var art := artifacts[n];
      NeedsIff(art, data);
      if data.source in art.versions { CandidateClassified(art, pkg, art.versions[data.source].designTime, fitting, drs, x); }
      hide NeedsDelivery, Classified, CandidateFor;
      if a: nat :| Offers(Package(pkg, artifacts), a, data, fitting, drs, x) {
        assert a < n ==> Offers(Package(pkg, artifacts[..n]), a, data, fitting, drs, x);
      }
      if a: nat :| Offers(Package(pkg, artifacts[..n]), a, data, fitting, drs, x) {
        assert Offers(Package(pkg, artifacts), a, data, fitting, drs, x);
      }
      if x in Candidates(artifacts, pkg, data, fitting, drs) && x !in Candidates(artifacts[..n], pkg, data, fitting, drs) {
        assert InPreview(art, data) && x == CandidateFor(art, pkg, art.versions[data.source].designTime, fitting, drs);
        assert Offers(Package(pkg, artifacts), n, data, fitting, drs, x);
      }
    }
  }

  lemma {:induction false} AllOffered(packages: seq<Package>, data: Snapshot, fitting: set<string>, drs: seq<Active>, x: Candidate)
    ensures x in AllCandidates(packages, data, fitting, drs)
            <==> exists p, a: nat :: 0 <= p < |packages| && Offers(packages[p], a, data, fitting, drs, x)
  {
    hide Offers;
    if packages != [] {
      var n := |packages| - 1;
      AllOffered(packages[..n], data, fitting, drs, x);
      CandidatesOffered(packages[n].artifacts, packages[n].id, data, fitting, drs, x);
      assert Package(packages[n].id, packages[n].artifacts) == packages[n];
      if p, a: nat :| 0 <= p < |packages| && Offers(packages[p], a, data, fitting, drs, x) {
        assert p < n ==> packages[..n][p] == packages[p];
      }
      if p, a: nat :| 0 <= p < n && Offers(packages[..n][p], a, data, fitting, drs, x) {
        assert packages[p] == packages[..n][p];
      }
    }
  }

  function Count(candidates: seq<Candidate>, category: Category): nat {
    if candidates == [] then 0
    else Count(candidates[..|candidates| - 1], category) + if candidates[|candidates| - 1].category == category then 1 else 0
  }

  lemma CountOneMore(candidates: seq<Candidate>, c: Candidate, category: Category)
    ensures Count(candidates + [c], category) == Count(candidates, category) + if c.category == category then 1 else 0
  {
    assert (candidates + [c])[..|candidates|] == candidates;
  }

  ghost predicate Summarises(s: Summary, candidates: seq<Candidate>) {
    && s.total == |candidates|
    && s.draft == Count(candidates, Draft)
    && s.versionPattern == Count(candidates, VersionPattern)
    && s.duplicate == Count(candidates, Duplicate)
    && s.includable == Count(candidates, Includable)
  }

  datatype Preview = Preview(artifacts: seq<Candidate>, summary: Summary) | NothingToDeliver

  function Bump(s: Summary, category: Category): Summary {
    var t := s.(total := s.total + 1);
    match category
    case Draft => t.(draft := s.draft + 1)
    case VersionPattern => t.(versionPattern := s.versionPattern + 1)
    case Duplicate => t.(duplicate := s.duplicate + 1)
    case Includable => t.(includable := s.includable + 1)
  }

  lemma BumpSummarises(s: Summary, candidates: seq<Candidate>, c: Candidate)
    requires Summarises(s, candidates)
    ensures Summarises(Bump(s, c.category), candidates + [c])
  {
    CountOneMore(candidates, c, Draft);
    CountOneMore(candidates, c, VersionPattern);
    CountOneMore(candidates, c, Duplicate);
    CountOneMore(candidates, c, Includable);
  }

  method MismatchesSomewhere(art: Artifact, data: Snapshot) returns (hasMismatch: bool)
    requires data.source in art.versions
    ensures hasMismatch <==> exists t | t in data.compared :: Differs(art, data.source, t)
  {
    for i := 0 to |data.compared|
      invariant forall t | t in data.compared[..i] :: !Differs(art, data.source, t)
    {
      var target := data.compared[i];
      assert data.compared[..i + 1] == data.compared[..i] + [target];
      if target !in art.versions || art.versions[target].designTime != art.versions[data.source].designTime
         || IsDraft(art.versions[data.source].designTime) || IsDraft(art.versions[target].designTime) {
        assert target in data.compared && Differs(art, data.source, target);
        return true;
      }
    }
    assert data.compared[..|data.compared|] == data.compared;
    return false;
  }

  /** fitting: the versions the delivery rule's pattern lets through. The four categories make up the total, and the
      total is the length of the list. */
  method PreviewDrFromMismatch(data: Snapshot, fitting: set<string>, drs: seq<Active>) returns (preview: Preview)
    ensures preview.NothingToDeliver? <==> AllCandidates(data.packages, data, fitting, drs) == []
    ensures preview.Preview? ==> preview.artifacts == AllCandidates(data.packages, data, fitting, drs)
    ensures preview.Preview? ==> forall x :: x in preview.artifacts <==> Offered(data, fitting, drs, x)
    ensures preview.NothingToDeliver? ==> forall x :: !Offered(data, fitting, drs, x)
    ensures preview.Preview? ==> Summarises(preview.summary, preview.artifacts)
    ensures preview.Preview? ==> var s := preview.summary;
              s.draft + s.versionPattern + s.duplicate + s.includable == s.total == |preview.artifacts|
  {
    var existing := IndexActive(drs);
    var list: seq<Candidate> := [];
    var summary := Summary(0, 0, 0, 0, 0);
    for p := 0 to |data.packages|
      invariant list == AllCandidates(data.packages[..p], data, fitting, drs)
      invariant Summarises(summary, list)
      invariant summary.draft + summary.versionPattern + summary.duplicate + summary.includable == summary.total
    {
      assert data.packages[..p + 1][..p] == data.packages[..p];
      ghost var before := list;
      list, summary := AddPackage(data.packages[p], data, fitting, drs, existing, list, summary);
    }
    assert data.packages[..|data.packages|] == data.packages;
    forall x ensures x in list <==> Offered(data, fitting, drs, x) { AllOffered(data.packages, data, fitting, drs, x); }
    if summary.total == 0 { return NothingToDeliver; }
    return Preview(list, summary);
  }

  method AddPackage(pkg: Package, data: Snapshot, fitting: set<string>, drs: seq<Active>, existing: map<(string, string), nat>,
                    list: seq<Candidate>, summary: Summary) returns (list': seq<Candidate>, summary': Summary)
    requires forall key :: FirstWith(drs, key) == if key in existing then Some(existing[key]) else None
    requires Summarises(summary, list)
    requires summary.draft + summary.versionPattern + summary.duplicate + summary.includable == summary.total
    ensures list' == list + Candidates(pkg.artifacts, pkg.id, data, fitting, drs)
    ensures Summarises(summary', list')
    ensures summary'.draft + summary'.versionPattern + summary'.duplicate + summary'.includable == summary'.total
  {
    list', summary' := list, summary;
    hide FirstWith, IsDraft, Count;
    for a := 0 to |pkg.artifacts|
      invariant list' == list + Candidates(pkg.artifacts[..a], pkg.id, data, fitting, drs)
      invariant Summarises(summary', list')
      invariant summary'.draft + summary'.versionPattern + summary'.duplicate + summary'.includable == summary'.total
    {
      var art := pkg.artifacts[a];
      assert pkg.artifacts[..a + 1][..a] == pkg.artifacts[..a];
      if data.source !in art.versions || art.versions[data.source].designTime == "" { continue; }
      var hasMismatch := MismatchesSomewhere(art, data);
      if !hasMismatch { continue; }
      var version := art.versions[data.source].designTime;
      var candidate := Candidate(art.id, pkg.id, version, Includable, None);
      if IsDraft(version) {
        candidate := candidate.(category := Draft);
      } else if version !in fitting {
        candidate := candidate.(category := VersionPattern);
      } else if (art.id, version) in existing {
        candidate := candidate.(category := Duplicate, existing := Some(existing[(art.id, version)]));
      }
      assert candidate == CandidateFor(art, pkg.id, version, fitting, drs);
      BumpSummarises(summary', list', candidate);
      list', summary' := list' + [candidate], Bump(summary', candidate.category);
    }
    assert pkg.artifacts[..|pkg.artifacts|] == pkg.artifacts;
  }

  /** The preview lists exactly the artifacts the design-time view flags and those a compared tenant lacks, which the
      view passes over; and neither if the source's version is empty. */
  lemma PreviewAgreesWithView(art: Artifact, data: Snapshot)
    requires data.source in art.versions && data.source !in data.compared
    requires forall t | t in art.versions :: t == data.source || t in data.compared
    ensures InPreview(art, data)
            <==> art.versions[data.source].designTime != ""
                 && (HasMismatch(ArtifactViewOf(art, data.source, Params(true, false, true, [])))
                     || exists t :: t in data.compared && t !in art.versions)
  {
    hide IsDraft;
    var view := ArtifactViewOf(art, data.source, Params(true, false, true, []));
    if t :| t in data.compared && Differs(art, data.source, t) {
      assert t in art.versions ==> t in view.versions && Mismatched(view.versions[t]);
    }
    if HasMismatch(view) {
      var t :| t in view.versions && Mismatched(view.versions[t]);
      assert t in data.compared && Differs(art, data.source, t);
    }
    if t :| t in data.compared && t !in art.versions {
      assert Differs(art, data.source, t);
    }
  }
}
