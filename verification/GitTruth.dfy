/** What a completed snapshot may be trusted for: whether what its row points at parses to the version in its key. */
module GitTruth {
  import opened Strings
  import opened Paths
  import opened GitObjects
  import opened Manifest
  import opened Snapshots
  import opened GitSync
  import opened GitTags
  import CP = CommitProtocol

  /** Reading the commit at the directory and parsing the manifest gives the version. */
  predicate Carries(commit: Commit, dir: string, version: string) {
    ExtractVersion(ReadTree(commit.tree, dir)) == Some(version)
  }

  predicate Truthful(key: Key, row: Row) {
    row.commit.Some? && Carries(row.commit.value, row.treePath, key.version)
  }

  function BranchOf(tenantName: string): string { "tenant/" + tenantName }

  /** A commit on the tenant's branch that carries the version of the artifact where its package keeps it. */
  ghost predicate Serves(store: CP.State, tenantName: string, packageId: string, artifact: string, version: string, commit: Commit) {
    CP.Within(store, BranchOf(tenantName), commit) && Carries(commit, packageId + "/" + artifact, version)
  }

  ghost predicate ServesWorker(store: CP.State, w: Worker, commit: Commit) {
    Serves(store, w.req.tenantName, w.req.packageId, w.req.artifact, w.version, commit)
  }

  ghost predicate WorkerOk(store: CP.State, worker: Worker) {
    && WellNamed(worker.req)
    && ExtractVersion(worker.req.files) == Some(worker.version)
    && match worker.pc
       case Committing(_, call) =>
         && call in store.procs
         && store.procs[call].call.branch == BranchOf(worker.req.tenantName)
         && store.procs[call].call.treePath == Dir(worker.req)
         && MANIFEST in store.procs[call].call.files
         && store.procs[call].call.files[MANIFEST] == worker.req.files[MANIFEST]
       case Tagging(_, commit) => ServesWorker(store, worker, commit)
       case Writing(_, status, result) => status == Completed ==> result.Some? && ServesWorker(store, worker, result.value)
       case _ => true
  }

  ghost predicate TagsOk(store: CP.State, tags: Refs) {
    forall tenantName, packageId, artifact, version |
      '/' !in tenantName && '/' !in packageId && '/' !in artifact && TagName(tenantName, packageId, artifact, version) in tags ::
      Serves(store, tenantName, packageId, artifact, version, tags[TagName(tenantName, packageId, artifact, version)])
  }

  ghost predicate Inv(s: State) {
    && CP.Inv(s.store)
    && (forall w | w in s.workers :: WorkerOk(s.store, s.workers[w]))
    && TagsOk(s.store, s.tags)
  }

  /** A commit that holds the uploaded manifest carries its version. */
  lemma HoldingCarries(commit: Commit, dir: string, files: FileMap, version: string)
    requires Holds(commit.tree, dir, files) && MANIFEST in files
    requires VersionOfLines(Split(files[MANIFEST], '\n')) == Some(version)
    ensures Carries(commit, dir, version)
  {
    assert dir + "/" + MANIFEST in commit.tree;
  }

  /** The store may move on: no call is forgotten and no branch moves back. */
  ghost predicate MovesOn(before: CP.State, after: CP.State) {
    && (forall id | id in before.procs :: id in after.procs && after.procs[id].call == before.procs[id].call)
    && CP.BranchesAdvance(before, after)
  }

  lemma StillServes(before: CP.State, after: CP.State, tenantName: string, packageId: string, artifact: string, version: string, commit: Commit)
    requires Serves(before, tenantName, packageId, artifact, version, commit) && MovesOn(before, after)
    ensures Serves(after, tenantName, packageId, artifact, version, commit)
  {
    hide Carries;
    CP.StaysWithin(before, after, BranchOf(tenantName), commit);
  }

  lemma WorkerStays(before: CP.State, after: CP.State, worker: Worker)
    requires WorkerOk(before, worker) && MovesOn(before, after)
    ensures WorkerOk(after, worker)
  {
    hide ExtractVersion, Serves, WellNamed, CP.BranchesAdvance;
    match worker.pc
    case Tagging(_, commit) =>
      StillServes(before, after, worker.req.tenantName, worker.req.packageId, worker.req.artifact, worker.version, commit);
    case Writing(_, status, result) =>
      if status == Completed {
        StillServes(before, after, worker.req.tenantName, worker.req.packageId, worker.req.artifact, worker.version, result.value);
      }
    case _ =>
  }

  lemma TagsStay(before: CP.State, after: CP.State, tags: Refs)
    requires TagsOk(before, tags) && MovesOn(before, after)
    ensures TagsOk(after, tags)
  {
    hide Serves, MovesOn;
    forall tenantName, packageId, artifact, version |
      '/' !in tenantName && '/' !in packageId && '/' !in artifact && TagName(tenantName, packageId, artifact, version) in tags
      ensures Serves(after, tenantName, packageId, artifact, version, tags[TagName(tenantName, packageId, artifact, version)])
    {
      StillServes(before, after, tenantName, packageId, artifact, version, tags[TagName(tenantName, packageId, artifact, version)]);
    }
  }

  lemma TagsOkAfter(store: CP.State, tags: Refs, w: Worker, commit: Commit)
    requires TagsOk(store, tags) && WellNamed(w.req) && ServesWorker(store, w, commit)
    ensures TagsOk(store, CreateRef(tags, TagOf(w), commit))
  {
    hide Serves;
    var after := CreateRef(tags, TagOf(w), commit);
    forall tenantName, packageId, artifact, version |
      '/' !in tenantName && '/' !in packageId && '/' !in artifact && TagName(tenantName, packageId, artifact, version) in after
      ensures Serves(store, tenantName, packageId, artifact, version, after[TagName(tenantName, packageId, artifact, version)])
    {
      if TagName(tenantName, packageId, artifact, version) == TagOf(w) {
        TagNameInjective(tenantName, packageId, artifact, version, w.req.tenantName, w.req.packageId, w.req.artifact, w.version);
      }
    }
  }

  /** One worker's step, whatever it does to the table. */
  lemma OneWorker(s: State, w: nat, worker: Worker, rows: Rows, tags: Refs, store: CP.State)
    requires Inv(s) && CP.Inv(store) && MovesOn(s.store, store)
    requires TagsOk(store, tags) && WorkerOk(store, worker)
    ensures Inv(s.(rows := rows, tags := tags, store := store, workers := s.workers[w := worker]))
  {
    hide WorkerOk, TagsOk, MovesOn, CP.Inv;
    forall v | v in s.workers ensures WorkerOk(store, s.workers[v]) { WorkerStays(s.store, store, s.workers[v]); }
  }

  lemma SameStore(store: CP.State)
    ensures MovesOn(store, store)
  {
  }

  /** Steps that leave store and tags alone: the worker moves on with nothing to vouch for. */
  lemma TableStep(s: State, step: Step)
    requires Inv(s) && Enabled(s, step)
    requires step.InsertRow? || step.Look? || step.Restale? || step.Refail? || step.GiveUp? || step.Write? || step.Die?
    ensures Inv(Apply(s, step))
  {
    hide CP.Inv, CP.Enabled, CP.Apply, ExtractVersion, TagsOk, TagName, WellNamed, Insert, TakeStale, TakeFailed, Complete, MovesOn;
    hide Serves, KeyOf, FirstRow, IsStale, IsFailed, RecordNotFound, Invalidate, CreateRef;
    assert WorkerOk(s.store, s.workers[step.w]);
    SameStore(s.store);
    var t := Apply(s, step);
    OneWorker(s, step.w, t.workers[step.w], t.rows, s.tags, s.store);
  }

  lemma TagStep(s: State, w: nat, fault: Fault)
    requires Inv(s) && Enabled(s, Tag(w, fault))
    ensures Inv(Apply(s, Tag(w, fault)))
  {
    hide CP.Inv, CP.Enabled, CP.Apply, ExtractVersion, TagsOk, TagName, MovesOn, Serves, CanonicalFiles, Plain;
    var t := Apply(s, Tag(w, fault));
    assert WorkerOk(s.store, s.workers[w]);
    TagsOkAfter(s.store, s.tags, s.workers[w], s.workers[w].pc.commit);
    SameStore(s.store);
    OneWorker(s, w, t.workers[w], s.rows, t.tags, s.store);
  }

  lemma CheckTagStep(s: State, w: nat)
    requires Inv(s) && Enabled(s, CheckTag(w))
    ensures Inv(Apply(s, CheckTag(w)))
  {
    hide CP.Inv, CP.Enabled, CP.Apply, ExtractVersion, CanonicalFiles, Plain, MovesOn, Serves;
    assert WorkerOk(s.store, s.workers[w]);
    SameStore(s.store);
    OneWorker(s, w, Apply(s, CheckTag(w)).workers[w], s.rows, s.tags, s.store);
  }

  lemma ReturnedServes(s: State, w: nat)
    requires CP.Inv(s.store) && w in s.workers && WorkerOk(s.store, s.workers[w]) && Enabled(s, Collect(w))
    requires s.store.procs[s.workers[w].pc.call].pc.outcome.Returned?
    ensures ServesWorker(s.store, s.workers[w], s.store.procs[s.workers[w].pc.call].pc.outcome.commit)
  {
    hide CP.LogOk, CP.Apply;
    var worker := s.workers[w];
    var proc := s.store.procs[worker.pc.call];
    assert CP.ProcOk(s.store, worker.pc.call);
    HoldingCarries(proc.pc.outcome.commit, Dir(worker.req), proc.call.files, worker.version);
  }

  lemma CollectStep(s: State, w: nat)
    requires Inv(s) && Enabled(s, Collect(w))
    ensures Inv(Apply(s, Collect(w)))
  {
    hide CP.Inv, CP.Enabled, CP.Apply, ExtractVersion, TagsOk, TagName, MovesOn, Serves;
    assert WorkerOk(s.store, s.workers[w]);
    if s.store.procs[s.workers[w].pc.call].pc.outcome.Returned? {
      ReturnedServes(s, w);
    }
    SameStore(s.store);
    OneWorker(s, w, Apply(s, Collect(w)).workers[w], s.rows, s.tags, s.store);
  }

  lemma StoreMoves(store: CP.State, step: CP.Step)
    requires CP.Inv(store) && CP.Enabled(store, step)
    ensures CP.Inv(CP.Apply(store, step)) && MovesOn(store, CP.Apply(store, step))
  {
    CP.InvStep(store, step);
    CP.StepAdvances(store, step);
    hide CP.Inv, CP.BranchesAdvance;
  }

  function Spawned(store: CP.State, call: nat, request: CP.Call): CP.State {
    store.(procs := store.procs[call := CP.Proc(request, CP.Ensuring)])
  }

  lemma SpawnedOk(store: CP.State, worker: Worker, stamp: int, call: nat, yaml: string, message: string)
    requires WorkerOk(store, worker)
    ensures WorkerOk(Spawned(store, call, CallOf(worker, yaml, message)), worker.(pc := Committing(stamp, call)))
  {
    assert MANIFEST in worker.req.files;
    hide VersionOfLines, WellNamed, Serves;
  }

  lemma SpawnStep(s: State, w: nat, call: nat, yaml: string, message: string)
    requires Inv(s) && Enabled(s, Spawn(w, call, yaml, message))
    ensures Inv(Apply(s, Spawn(w, call, yaml, message)))
  {
    var worker := s.workers[w];
    var request := CallOf(worker, yaml, message);
    var after := Spawned(s.store, call, request);
    assert WorkerOk(s.store, worker);
    assert CP.Enabled(s.store, CP.Start(call, request)) && CP.Apply(s.store, CP.Start(call, request)) == after;
    assert Apply(s, Spawn(w, call, yaml, message))
           == s.(store := after, workers := s.workers[w := worker.(pc := Committing(worker.pc.stamp, call))]);
    SpawnedOk(s.store, worker, worker.pc.stamp, call, yaml, message);
    hide *;
    StoreMoves(s.store, CP.Start(call, request));
    SpawnEnds(s, w, worker.(pc := Committing(worker.pc.stamp, call)), after);
  }

  lemma SpawnEnds(s: State, w: nat, worker: Worker, after: CP.State)
    requires Inv(s) && CP.Inv(after) && MovesOn(s.store, after) && WorkerOk(after, worker)
    ensures Inv(s.(store := after, workers := s.workers[w := worker]))
  {
    hide CP.Inv, TagsOk, MovesOn, WorkerOk;
    TagsStay(s.store, after, s.tags);
    OneWorker(s, w, worker, s.rows, s.tags, after);
  }

  lemma StoreStep(s: State, step: CP.Step)
    requires Inv(s) && Enabled(s, Store(step))
    ensures Inv(Apply(s, Store(step)))
  {
    hide CP.Inv, CP.Apply, ExtractVersion, TagsOk, TagName, MovesOn, WorkerOk;
    var store := CP.Apply(s.store, step);
    StoreMoves(s.store, step);
    TagsStay(s.store, store, s.tags);
    forall w | w in s.workers ensures WorkerOk(store, s.workers[w]) { WorkerStays(s.store, store, s.workers[w]); }
  }

  lemma BeginStep(s: State, w: nat, req: Request)
    requires Inv(s) && Enabled(s, Begin(w, req))
    ensures Inv(Apply(s, Begin(w, req)))
  {
    hide CP.Inv, CP.Enabled, CP.Apply, VersionOfLines, TagsOk, TagName, MovesOn;
    SameStore(s.store);
    OneWorker(s, w, Apply(s, Begin(w, req)).workers[w], s.rows, s.tags, s.store);
  }

  lemma InvStep(s: State, step: Step)
    requires Inv(s) && Enabled(s, step)
    ensures Inv(Apply(s, step))
  {
    hide CP.Inv, CP.Enabled, CP.Apply, ExtractVersion, TagsOk, TagName, WellNamed, WorkerOk;
    match step
    case Begin(w, req) => BeginStep(s, w, req);
    case CheckTag(w) => CheckTagStep(s, w);
    case Spawn(w, call, yaml, message) => SpawnStep(s, w, call, yaml, message);
    case Store(inner) => StoreStep(s, inner);
    case Collect(w) => CollectStep(s, w);
    case Tag(w, fault) => TagStep(s, w, fault);
    case Tick(_) =>
    case InvalidateRow(_) =>
    case NoteNotFound(_, _) =>
    case _ => TableStep(s, step);
  }

  lemma {:induction false} RunInv(states: seq<State>, steps: seq<Step>, i: nat)
    requires Run(states, steps) && i < |states|
    ensures Inv(states[i])
  {
    hide Apply, Enabled;
    if i > 0 {
      RunInv(states, steps, i - 1);
      hide Inv;
      InvStep(states[i - 1], steps[i - 1]);
    }
  }

  // ----- Who completed a row, and what its commit carries -----

  /** Worker w completed the row that stands at i in step j, and nobody has touched it since. */
  ghost predicate CompletedIn(states: seq<State>, steps: seq<Step>, j: nat, w: nat, i: nat, key: Key)
    requires |states| == |steps| + 1 && i < |states| && key in states[i].rows
  {
    && j < i && steps[j].Write? && steps[j].w == w && w in states[j].workers
    && KeyOf(states[j].workers[w]) == key
    && states[j].workers[w].pc.Writing? && states[j].workers[w].pc.status == Completed
    && states[j].workers[w].pc.result == states[i].rows[key].commit
    && key in states[j].rows && states[j].rows[key].treePath == states[i].rows[key].treePath
  }

  lemma CompletingStep(s: State, step: Step, key: Key)
    requires Enabled(s, step) && key in Apply(s, step).rows && Apply(s, step).rows[key].status == Completed
    requires key !in s.rows || s.rows[key] != Apply(s, step).rows[key]
    ensures step.Write? && KeyOf(s.workers[step.w]) == key
    ensures s.workers[step.w].pc.status == Completed && s.workers[step.w].pc.result == Apply(s, step).rows[key].commit
    ensures key in s.rows && s.rows[key].treePath == Apply(s, step).rows[key].treePath
  {
    hide CP.Enabled, CP.Apply, ExtractVersion, WellNamed, TagName, CallOf, CreateRef, TagOf, Dir;
  }

  lemma {:induction false} WhoCompleted(states: seq<State>, steps: seq<Step>, i: nat, key: Key) returns (j: nat, w: nat)
    requires Run(states, steps) && i < |states| && key in states[i].rows && states[i].rows[key].status == Completed
    ensures CompletedIn(states, steps, j, w, i, key)
  {
    hide Apply, KeyOf;
    var s := states[i - 1];
    if key in s.rows && s.rows[key] == states[i].rows[key] {
      j, w := WhoCompleted(states, steps, i - 1, key);
    } else {
      CompletingStep(s, steps[i - 1], key);
      j, w := i - 1, steps[i - 1].w;
      assert Enabled(states[i - 1], steps[i - 1]);
    }
  }

  /** In the history ids of a commit, the last sync that stored a manifest below dir uploaded this version; or none
      did, and it was there to begin with. */
  ghost predicate HistoryCarries(procs: map<nat, CP.Proc>, ids: seq<nat>, base: Commit, dir: string, version: string) {
    var p := dir + "/" + MANIFEST;
    || (exists k: nat :: CP.LastWrite(procs, ids, k, p) && UploadedVersion(procs[ids[k]].call, p) == Some(version))
    || ((forall k: nat :: !CP.LastWrite(procs, ids, k, p)) && Carries(base, dir, version))
  }

  function UploadedVersion(call: CP.Call, p: string): Option<string>
    requires CP.Writes(call, p)
  {
    VersionOfLines(Split(call.files[p[|call.treePath| + 1..]], '\n'))
  }

  /** The calls whose commits lie between a branch's base and a commit on it. */
  ghost function HistoryOf(store: CP.State, branch: string, commit: Commit): seq<nat>
    requires CP.Inv(store) && CP.Within(store, branch, commit)
  {
    assert CP.LogOk(store, branch);
    CP.SerialPrefix(store.procs, branch, CP.Logged(store, branch), store.bases[branch], store.heads[branch], commit);
    CP.Logged(store, branch)[..Depth(commit) - Depth(store.bases[branch])]
  }

  lemma CarriesIff(commit: Commit, dir: string, version: string)
    ensures Carries(commit, dir, version)
            <==> dir + "/" + MANIFEST in commit.tree
                 && VersionOfLines(Split(commit.tree[dir + "/" + MANIFEST], '\n')) == Some(version)
  {
  }

  lemma OneLastWrite(procs: map<nat, CP.Proc>, ids: seq<nat>, j: nat, k: nat, p: string)
    requires CP.LastWrite(procs, ids, j, p) && CP.LastWrite(procs, ids, k, p)
    ensures j == k
  {
  }

  lemma WritesAt(procs: map<nat, CP.Proc>, ids: seq<nat>, k: nat, p: string)
    requires CP.LastWrite(procs, ids, k, p)
    ensures k < |ids| && ids[k] in procs && CP.Writes(procs[ids[k]].call, p)
    ensures UploadedVersion(procs[ids[k]].call, p) == VersionOfLines(Split(procs[ids[k]].call.files[p[|procs[ids[k]].call.treePath| + 1..]], '\n'))
  {
  }

  lemma LastWriteDecides(procs: map<nat, CP.Proc>, ids: seq<nat>, base: Commit, k: nat, dir: string, version: string)
    requires CP.LastWrite(procs, ids, k, dir + "/" + MANIFEST)
    ensures HistoryCarries(procs, ids, base, dir, version) <==> UploadedVersion(procs[ids[k]].call, dir + "/" + MANIFEST) == Some(version)
  {
    var p := dir + "/" + MANIFEST;
    hide CP.Writes, UploadedVersion, Carries;
    forall j: nat | CP.LastWrite(procs, ids, j, p) ensures j == k { OneLastWrite(procs, ids, j, k, p); }
  }

  lemma NoWriteDecides(procs: map<nat, CP.Proc>, ids: seq<nat>, base: Commit, dir: string, version: string)
    requires forall k: nat :: !CP.LastWrite(procs, ids, k, dir + "/" + MANIFEST)
    ensures HistoryCarries(procs, ids, base, dir, version) <==> Carries(base, dir, version)
  {
    hide CP.LastWrite, UploadedVersion, Carries;
  }

  /** What a commit carries below a directory is decided by its history. */
  lemma HistoryDecides(store: CP.State, branch: string, commit: Commit, dir: string, version: string)
    requires CP.Inv(store) && CP.Within(store, branch, commit)
    ensures Carries(commit, dir, version)
            <==> HistoryCarries(store.procs, HistoryOf(store, branch, commit), store.bases[branch], dir, version)
  {
    var p := dir + "/" + MANIFEST;
    var base := store.bases[branch];
    var ids := HistoryOf(store, branch, commit);
    assert CP.LogOk(store, branch);
    CP.SerialPrefix(store.procs, branch, CP.Logged(store, branch), base, store.heads[branch], commit);
    CP.LastWriterWins(store.procs, branch, ids, base, commit, p);
    CarriesIff(commit, dir, version);
    CarriesIff(base, dir, version);
    hide *;
    if k: nat :| CP.LastWrite(store.procs, ids, k, p) {
      LastWriteDecides(store.procs, ids, base, k, dir, version);
      WritesAt(store.procs, ids, k, p);
    } else {
      NoWriteDecides(store.procs, ids, base, dir, version);
    }
  }

  lemma {:induction false} StoreMovesOn(states: seq<State>, steps: seq<Step>, i: nat, j: nat, branch: string, commit: Commit)
    requires Run(states, steps) && i <= j < |states| && CP.Within(states[i].store, branch, commit)
    ensures CP.Within(states[j].store, branch, commit)
    decreases j
  {
    hide Apply, Enabled, CP.Within, CP.BranchesAdvance;
    if i < j {
      StoreMovesOn(states, steps, i, j - 1, branch, commit);
      StoreAdvances(states[j - 1], steps[j - 1]);
      CP.StaysWithin(states[j - 1].store, states[j].store, branch, commit);
    }
  }

  lemma StoreAdvances(s: State, step: Step)
    requires Enabled(s, step)
    ensures CP.BranchesAdvance(s.store, Apply(s, step).store)
  {
    hide CP.Enabled, CP.Apply, CP.BranchesAdvance, ExtractVersion, WellNamed;
    if step.Store? { CP.StepAdvances(s.store, step.step); }
    else if step.Spawn? { CP.StepAdvances(s.store, CP.Start(step.call, CallOf(s.workers[step.w], step.yaml, step.message))); }
    else { StaysPut(s.store); }
  }

  lemma StaysPut(store: CP.State)
    ensures CP.BranchesAdvance(store, store)
  {
  }

  /** In every state of every interleaving, with a fresh commit, an unchanged tree or a tag found: a completed row is
      truthful exactly when the worker that completed it worked in the row's own directory, or the last sync of that
      directory in its commit's history had uploaded the same version. */
  lemma TruthIff(states: seq<State>, steps: seq<Step>, i: nat, key: Key) returns (j: nat, w: nat)
    requires Run(states, steps) && i < |states| && key in states[i].rows && states[i].rows[key].status == Completed
    ensures CompletedIn(states, steps, j, w, i, key) && states[i].rows[key].commit.Some?
    ensures var store, row, worker := states[i].store, states[i].rows[key], states[j].workers[w];
            var branch := BranchOf(worker.req.tenantName);
            && CP.Inv(store) && CP.Within(store, branch, row.commit.value)
            && (Truthful(key, row) <==>
                  || Dir(worker.req) == row.treePath
                  || HistoryCarries(store.procs, HistoryOf(store, branch, row.commit.value), store.bases[branch], row.treePath, key.version))
  {
    j, w := WhoCompleted(states, steps, i, key);
    RunInv(states, steps, j);
    RunInv(states, steps, i);
    var worker, row := states[j].workers[w], states[i].rows[key];
    assert WorkerOk(states[j].store, worker);
    var branch := BranchOf(worker.req.tenantName);
    hide CP.Inv, CP.Within, Carries, HistoryCarries, HistoryOf, TagsOk;
    StoreMovesOn(states, steps, j, i, branch, row.commit.value);
    HistoryDecides(states[i].store, branch, row.commit.value, row.treePath, key.version);
  }

  // ----- An artifact that stays in its package -----

  /** Every request for this artifact of this tenant so far names the package. */
  ghost predicate Settled(s: State, artifact: string, tenantId: nat, packageId: string) {
    forall w | w in s.workers && s.workers[w].req.artifact == artifact && s.workers[w].req.tenantId == tenantId ::
      s.workers[w].req.packageId == packageId
  }

  predicate LiesIn(rows: Rows, key: Key, home: string) {
    key in rows && rows[key].treePath == home
  }

  /** Whoever works on the row works in this directory. */
  ghost predicate AllIn(s: State, key: Key, home: string) {
    forall w | w in s.workers && KeyOf(s.workers[w]) == key :: Dir(s.workers[w].req) == home
  }

  ghost predicate OwnedAtHome(s: State, key: Key, home: string) {
    forall w | w in s.workers && IsOwner(s.workers[w].pc) && KeyOf(s.workers[w]) == key :: LiesIn(s.rows, key, home)
  }

  /** A row that can be claimed, or is, lies in the directory. */
  ghost predicate AtHome(s: State, key: Key, home: string) {
    && (key in s.rows && s.rows[key].status != NotFound ==> LiesIn(s.rows, key, home))
    && OwnedAtHome(s, key, home)
  }

  /** No row goes or changes its directory. */
  lemma PathsStay(s: State, step: Step, key: Key)
    requires Enabled(s, step) && key in s.rows
    ensures key in Apply(s, step).rows && Apply(s, step).rows[key].treePath == s.rows[key].treePath
  {
    hide CP.Enabled, CP.Apply, ExtractVersion, WellNamed, TagName, CallOf, CreateRef, TagOf, Dir;
  }

  lemma RowsStay(s: State, step: Step)
    requires Enabled(s, step) && !step.InsertRow? && !step.NoteNotFound?
    ensures Apply(s, step).rows.Keys == s.rows.Keys
  {
    hide CP.Enabled, CP.Apply, ExtractVersion, WellNamed, TagName, CallOf, CreateRef, TagOf, Dir;
  }

  /** A row that can be claimed was inserted by a worker of its own. */
  lemma NewRow(s: State, step: Step, key: Key, home: string)
    requires Enabled(s, step) && AllIn(s, key, home)
    requires key !in s.rows && key in Apply(s, step).rows && Apply(s, step).rows[key].status != NotFound
    ensures LiesIn(Apply(s, step).rows, key, home)
  {
    hide CP.Enabled, CP.Apply, ExtractVersion, WellNamed, TagName, CallOf, CreateRef, TagOf, Dir;
    if !step.InsertRow? && !step.NoteNotFound? {
      hide Apply;
      RowsStay(s, step);
    }
  }

  /** Only an owner's last write takes a row out of not found. */
  lemma OutOfNotFound(s: State, step: Step, key: Key)
    requires Enabled(s, step) && key in s.rows && s.rows[key].status == NotFound
    requires key in Apply(s, step).rows && Apply(s, step).rows[key].status != NotFound
    ensures step.Write? && KeyOf(s.workers[step.w]) == key
  {
    hide CP.Enabled, CP.Apply, ExtractVersion, WellNamed, TagName, CallOf, CreateRef, TagOf, Dir;
  }

  lemma RowStaysHome(s: State, step: Step, key: Key, home: string)
    requires Enabled(s, step) && AtHome(s, key, home) && AllIn(s, key, home)
    ensures key in Apply(s, step).rows && Apply(s, step).rows[key].status != NotFound ==> LiesIn(Apply(s, step).rows, key, home)
    ensures LiesIn(s.rows, key, home) ==> LiesIn(Apply(s, step).rows, key, home)
  {
    var t := Apply(s, step);
    if key in s.rows {
      PathsStay(s, step, key);
      if s.rows[key].status == NotFound && t.rows[key].status != NotFound {
        OutOfNotFound(s, step, key);
        assert step.w in s.workers && IsOwner(s.workers[step.w].pc);
      }
    } else if key in t.rows && t.rows[key].status != NotFound {
      NewRow(s, step, key, home);
    }
    hide Apply, Enabled, AllIn;
  }

  predicate IsClaim(step: Step, w: nat) {
    (step.InsertRow? || step.Restale? || step.Refail?) && step.w == w
  }

  lemma ClaimedAtHome(s: State, step: Step, w: nat, home: string)
    requires Enabled(s, step) && IsClaim(step, w) && w in s.workers
    requires AtHome(s, KeyOf(s.workers[w]), home) && AllIn(s, KeyOf(s.workers[w]), home)
    requires IsOwner(Apply(s, step).workers[w].pc)
    ensures LiesIn(Apply(s, step).rows, KeyOf(s.workers[w]), home)
  {
    hide CP.Enabled, CP.Apply, ExtractVersion, WellNamed, TagName, CallOf, CreateRef, TagOf, Dir;
  }

  lemma OwnedBefore(s: State, step: Step, w: nat)
    requires Enabled(s, step) && !IsClaim(step, w)
    requires w in Apply(s, step).workers && IsOwner(Apply(s, step).workers[w].pc)
    ensures w in s.workers && IsOwner(s.workers[w].pc)
  {
    hide CP.Enabled, CP.Apply, ExtractVersion, WellNamed, TagName, CallOf, CreateRef, TagOf, Dir, Complete, Invalidate, RecordNotFound;
  }

  lemma SameKey(s: State, step: Step, w: nat)
    requires Enabled(s, step) && w in s.workers
    ensures w in Apply(s, step).workers && Apply(s, step).workers[w] == s.workers[w].(pc := Apply(s, step).workers[w].pc)
  {
    hide CP.Enabled, CP.Apply, ExtractVersion, WellNamed, TagName, CallOf, CreateRef, TagOf, Dir, Complete, Invalidate, RecordNotFound;
    hide Insert, TakeStale, TakeFailed, IsStale, IsFailed, KeyOf;
  }

  lemma HomeStep(s: State, step: Step, key: Key, home: string)
    requires Enabled(s, step) && AtHome(s, key, home) && AllIn(s, key, home)
    ensures AtHome(Apply(s, step), key, home)
  {
    RowStaysHome(s, step, key, home);
    var t := Apply(s, step);
    hide Apply, Enabled, LiesIn, AllIn;
    forall w | w in t.workers && IsOwner(t.workers[w].pc) && KeyOf(t.workers[w]) == key ensures LiesIn(t.rows, key, home) {
      if IsClaim(step, w) {
        NotNew(s, step, w);
        SameKey(s, step, w);
        ClaimedAtHome(s, step, w, home);
      } else {
        OwnedBefore(s, step, w);
        SameKey(s, step, w);
      }
    }
  }

  lemma NotNew(s: State, step: Step, w: nat)
    requires Enabled(s, step) && IsClaim(step, w)
    ensures w in s.workers
  {
  }

  lemma {:induction false} StaysHome(states: seq<State>, steps: seq<Step>, i: nat, key: Key, packageId: string)
    requires Run(states, steps) && i < |states|
    requires forall j | 0 <= j < |states| :: Settled(states[j], key.artifact, key.tenantId, packageId)
    ensures AtHome(states[i], key, packageId + "/" + key.artifact)
  {
    hide Apply, Enabled;
    if i > 0 {
      StaysHome(states, steps, i - 1, key, packageId);
      SettledIn(states[i - 1], key, packageId);
      hide AtHome, Settled;
      HomeStep(states[i - 1], steps[i - 1], key, packageId + "/" + key.artifact);
    }
  }

  lemma SettledIn(s: State, key: Key, packageId: string)
    requires Settled(s, key.artifact, key.tenantId, packageId)
    ensures AllIn(s, key, packageId + "/" + key.artifact)
  {
  }

  /** So every completed row of an artifact that stays in its package tells the truth, in every state of every
      interleaving, whatever other artifacts and tenants do. */
  lemma CompletedSnapshotsAreTruthful(states: seq<State>, steps: seq<Step>, i: nat, key: Key, packageId: string)
    requires Run(states, steps) && i < |states|
    requires forall j | 0 <= j < |states| :: Settled(states[j], key.artifact, key.tenantId, packageId)
    requires key in states[i].rows && states[i].rows[key].status == Completed
    ensures Truthful(key, states[i].rows[key])
  {
    var j, w := TruthIff(states, steps, i, key);
    StaysHome(states, steps, j, key, packageId);
    SettledIn(states[j], key, packageId);
    hide Truthful, CP.Inv, CP.Within, HistoryCarries, HistoryOf;
  }
}
