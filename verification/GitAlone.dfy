/** A sync that nobody disturbs, from its claim to its last write. */
module GitAlone {
  import opened Strings
  import opened Paths
  import opened GitObjects
  import opened Manifest
  import opened Snapshots
  import opened GitSync
  import opened GitTruth
  import opened GitClaims
  import CP = CommitProtocol

  lemma Taking(s: State, steps: seq<Step>, t: State, step: Step) returns (steps': seq<Step>, t': State)
    requires Leads(s, steps, t) && Enabled(t, step)
    ensures t' == Apply(t, step) && Leads(s, steps', t')
  {
    LeadsOn(s, steps, t, step);
    steps', t' := steps + [step], Apply(t, step);
  }

  /** The branch a call finds, or creates. */
  function StartOf(heads: Refs, branch: string, date: int): Refs {
    CreateRef(heads, branch, CP.Orphan(branch, date))
  }

  /** The commit a call that nobody disturbs returns: the tip, if it holds the files already, or a new one on top of it. */
  function MadeBy(heads: Refs, call: CP.Call, date: int): Commit {
    var tip := StartOf(heads, call.branch, date)[call.branch];
    if CP.Stored(call, tip) == tip.tree then tip else CP.NewCommit(call, tip, date)
  }

  /** The call is about to read a branch that is there. */
  lemma BranchEnsured(s: State, steps: seq<Step>, t: State, id: nat, date: int) returns (steps': seq<Step>, t': State)
    requires Leads(s, steps, t) && id in t.store.procs && t.store.procs[id].pc == CP.Ensuring
    ensures Leads(s, steps', t') && t' == t.(store := t'.store) && id in t'.store.procs
    ensures t'.store.procs[id] == CP.Proc(t.store.procs[id].call, CP.Reading(0))
    ensures t'.store.heads == StartOf(t.store.heads, t.store.procs[id].call.branch, date)
  {
    steps', t' := Taking(s, steps, t, Store(CP.Ensure(id, date)));
    if t'.store.procs[id].pc.Creating? {
      steps', t' := Taking(s, steps', t', Store(CP.Create(id, false)));
    }
  }

  /** The call, run to its end, moves its branch to the commit it returns and no other. */
  lemma CommitAlone(s: State, steps: seq<Step>, t: State, id: nat, date: int) returns (steps': seq<Step>, t': State)
    requires Leads(s, steps, t) && id in t.store.procs && t.store.procs[id].pc == CP.Ensuring
    ensures Leads(s, steps', t') && t' == t.(store := t'.store) && id in t'.store.procs
    ensures var call := t.store.procs[id].call;
            var made := MadeBy(t.store.heads, call, date);
            && t'.store.procs[id] == CP.Proc(call, CP.Finished(CP.Returned(made)))
            && t'.store.heads == StartOf(t.store.heads, call.branch, date)[call.branch := made]
  {
    steps', t' := BranchEnsured(s, steps, t, id, date);
    hide CP.Stored;
    steps', t' := Taking(s, steps', t', Store(CP.Read(id, date)));
    if t'.store.procs[id].pc.Pushing? {
      assert Ancestor(t'.store.procs[id].pc.parent, t'.store.procs[id].pc.staged);
      steps', t' := Taking(s, steps', t', Store(CP.Push(id, false)));
    }
  }

  /** The row as its owner leaves it. */
  function CompletedRow(rows: Rows, w: Worker, commit: Commit, now: int): Rows {
    var claimed := AfterClaim(rows, KeyOf(w), Dir(w.req), TagOf(w), now);
    if KeyOf(w) in claimed then claimed[KeyOf(w) := claimed[KeyOf(w)].(status := Completed, commit := Some(commit))] else claimed
  }

  /** With its tag there already, a sync completes the row with the tag's commit, and commits nothing. */
  lemma FoundTagAlone(s: State, w: nat) returns (steps: seq<Step>, t: State)
    requires w in s.workers && s.workers[w].pc == Claiming && Claimable(s.rows, KeyOf(s.workers[w]), s.now)
    requires TagOf(s.workers[w]) in s.tags
    ensures Leads(s, steps, t)
    ensures var worker := s.workers[w];
            t == s.(rows := CompletedRow(s.rows, worker, s.tags[TagOf(worker)], s.now), workers := s.workers[w := worker.(pc := Stopped)])
  {
    var worker := s.workers[w];
    steps, t := ClaimIsSteps(s, w);
    ClaimedIsThere(s.rows, KeyOf(worker), Dir(worker.req), TagOf(worker), s.now);
    hide AfterClaim, Claimable, CP.Enabled, CP.Apply, ExtractVersion, WellNamed, TagName, CallOf;
    steps, t := Taking(s, steps, t, CheckTag(w));
    steps, t := Taking(s, steps, t, Write(w, Fine));
    assert t.workers == s.workers[w := worker.(pc := Stopped)];
  }

  lemma ClaimedIsThere(rows: Rows, key: Key, treePath: string, tagName: string, now: int)
    requires Claimable(rows, key, now)
    ensures key in AfterClaim(rows, key, treePath, tagName, now)
  {
  }

  lemma CallIsCanonical(w: Worker, yaml: string, message: string)
    requires WellNamed(w.req)
    ensures Canonical(Dir(w.req)) && CanonicalFiles(CallOf(w, yaml, message).files)
  {
    SplitSingle(".cpi-sync.yaml", '/');
    SplitSingle(w.req.packageId, '/');
    SplitSingle(w.req.artifact, '/');
    CanonicalJoin(w.req.packageId, w.req.artifact);
  }

  /** The claim has succeeded, the tag is not there, and the Commit call is on its way. */
  lemma SpawnedAlone(s: State, w: nat, call: nat, yaml: string, message: string) returns (steps: seq<Step>, t: State)
    requires w in s.workers && s.workers[w].pc == Claiming && Claimable(s.rows, KeyOf(s.workers[w]), s.now)
    requires TagOf(s.workers[w]) !in s.tags && WellNamed(s.workers[w].req) && call !in s.store.procs
    ensures Leads(s, steps, t)
    ensures var worker := s.workers[w];
            && t.rows == AfterClaim(s.rows, KeyOf(worker), Dir(worker.req), TagOf(worker), s.now)
            && t.tags == s.tags && t.now == s.now && t.workers == s.workers[w := worker.(pc := Committing(s.now, call))]
            && t.store == s.store.(procs := s.store.procs[call := CP.Proc(CallOf(worker, yaml, message), CP.Ensuring)])
  {
    var worker := s.workers[w];
    steps, t := ClaimIsSteps(s, w);
    hide AfterClaim, Claimable, ExtractVersion, TagName;
    steps, t := Taking(s, steps, t, CheckTag(w));
    CallIsCanonical(worker, yaml, message);
    hide WellNamed, CallOf;
    steps, t := Taking(s, steps, t, Spawn(w, call, yaml, message));
  }

  /** The worker has entered its commit, and its tag names it. */
  function Ended(s: State, w: nat, commit: Commit): State
    requires w in s.workers && KeyOf(s.workers[w]) in s.rows
  {
    var worker := s.workers[w];
    s.(rows := s.rows[KeyOf(worker) := s.rows[KeyOf(worker)].(status := Completed, commit := Some(commit))],
       tags := s.tags[TagOf(worker) := commit], workers := s.workers[w := worker.(pc := Stopped)])
  }

  /** The call has come back with a commit: the tag and the row follow. */
  lemma EndsAlone(s: State, steps: seq<Step>, t: State, w: nat, stamp: int, call: nat, commit: Commit) returns (steps': seq<Step>, t': State)
    requires Leads(s, steps, t) && w in t.workers && t.workers[w].pc == Committing(stamp, call)
    requires call in t.store.procs && t.store.procs[call].pc == CP.Finished(CP.Returned(commit))
    requires TagOf(t.workers[w]) !in t.tags && KeyOf(t.workers[w]) in t.rows
    ensures Leads(s, steps', t') && t' == Ended(t, w, commit)
  {
    var worker := t.workers[w];
    hide TagName, CP.Apply, ExtractVersion;
    steps', t' := Taking(s, steps, t, Collect(w));
    steps', t' := Taking(s, steps', t', Tag(w, Fine));
    steps', t' := Taking(s, steps', t', Write(w, Fine));
    assert t'.workers == t.workers[w := worker.(pc := Stopped)];
  }

  lemma SameNames(w: Worker, pc: Pc)
    ensures TagOf(w.(pc := pc)) == TagOf(w) && KeyOf(w.(pc := pc)) == KeyOf(w)
  {
  }

  /** ... and has come back with its commit. */
  lemma CommittedAlone(s: State, w: nat, call: nat, yaml: string, message: string, date: int) returns (steps: seq<Step>, t: State)
    requires w in s.workers && s.workers[w].pc == Claiming && Claimable(s.rows, KeyOf(s.workers[w]), s.now)
    requires TagOf(s.workers[w]) !in s.tags && WellNamed(s.workers[w].req) && call !in s.store.procs
    ensures Leads(s, steps, t)
    ensures var worker := s.workers[w];
            var request := CallOf(worker, yaml, message);
            var made := MadeBy(s.store.heads, request, date);
            && call in t.store.procs && t.store.procs[call].pc == CP.Finished(CP.Returned(made))
            && t.store.heads == StartOf(s.store.heads, request.branch, date)[request.branch := made]
            && t == s.(rows := AfterClaim(s.rows, KeyOf(worker), Dir(worker.req), TagOf(worker), s.now), store := t.store,
                       workers := s.workers[w := worker.(pc := Committing(s.now, call))])
  {
    steps, t := SpawnedAlone(s, w, call, yaml, message);
    hide *;
    steps, t := CommitAlone(s, steps, t, call, date);
  }

  /** Left alone, a sync whose row can be claimed and whose tag is not there commits its files to its tenant's branch, tags
      the commit and completes the row with it; nothing else changes. */
  lemma SyncAlone(s: State, w: nat, call: nat, yaml: string, message: string, date: int) returns (steps: seq<Step>, t: State)
    requires w in s.workers && s.workers[w].pc == Claiming && Claimable(s.rows, KeyOf(s.workers[w]), s.now)
    requires TagOf(s.workers[w]) !in s.tags && WellNamed(s.workers[w].req) && call !in s.store.procs
    ensures Leads(s, steps, t)
    ensures var worker := s.workers[w];
            var request := CallOf(worker, yaml, message);
            var made := MadeBy(s.store.heads, request, date);
            && t.store.heads == StartOf(s.store.heads, request.branch, date)[request.branch := made]
            && t == s.(rows := CompletedRow(s.rows, worker, made, s.now), tags := s.tags[TagOf(worker) := made],
                       store := t.store, workers := s.workers[w := worker.(pc := Stopped)])
  {
    var worker := s.workers[w];
    var made := MadeBy(s.store.heads, CallOf(worker, yaml, message), date);
    ClaimedIsThere(s.rows, KeyOf(worker), Dir(worker.req), TagOf(worker), s.now);
    SameNames(worker, Committing(s.now, call));
    hide *;
    var b: State;
    steps, b := CommittedAlone(s, w, call, yaml, message, date);
    steps, t := EndsAlone(s, steps, b, w, s.now, call, made);
    SameEnd(s, b, w, call, made);
  }

  lemma SameEnd(s: State, b: State, w: nat, call: nat, made: Commit)
    requires w in s.workers && KeyOf(s.workers[w]) in b.rows
    requires b == s.(rows := AfterClaim(s.rows, KeyOf(s.workers[w]), Dir(s.workers[w].req), TagOf(s.workers[w]), s.now), store := b.store,
                     workers := s.workers[w := s.workers[w].(pc := Committing(s.now, call))])
    ensures w in b.workers && KeyOf(b.workers[w]) in b.rows
    ensures Ended(b, w, made) == s.(rows := CompletedRow(s.rows, s.workers[w], made, s.now), tags := s.tags[TagOf(s.workers[w]) := made],
                                    store := b.store, workers := s.workers[w := s.workers[w].(pc := Stopped)])
  {
    hide AfterClaim, TagName;
    assert Ended(b, w, made).workers == s.workers[w := s.workers[w].(pc := Stopped)];
  }

  /** The commit such a sync makes or finds holds every file it was given, and the sync context, in the artifact's own
      directory on the tenant's branch. */
  lemma MadeHoldsFiles(heads: Refs, w: Worker, yaml: string, message: string, date: int)
    requires WellNamed(w.req)
    ensures CallOf(w, yaml, message).branch == "tenant/" + w.req.tenantName
    ensures var made := MadeBy(heads, CallOf(w, yaml, message), date);
            var dir := w.req.packageId + "/" + w.req.artifact;
            && dir + "/" + ".cpi-sync.yaml" in made.tree && made.tree[dir + "/" + ".cpi-sync.yaml"] == yaml
            && forall rel | rel in w.req.files && rel != ".cpi-sync.yaml" ::
                 dir + "/" + rel in made.tree && made.tree[dir + "/" + rel] == w.req.files[rel]
  {
    var call := CallOf(w, yaml, message);
    var tip := StartOf(heads, call.branch, date)[call.branch];
    CallIsCanonical(w, yaml, message);
    OverlayHolds(tip.tree, call.treePath, call.files);
    assert Holds(MadeBy(heads, call, date).tree, call.treePath, call.files);
    assert ".cpi-sync.yaml" in call.files;
    hide MadeBy, Canonical, CanonicalFiles;
  }

  /** On a new branch it follows an empty commit that says which branch it begins. */
  lemma FirstCommit(heads: Refs, call: CP.Call, date: int)
    requires call.branch !in heads && call.files != map[]
    ensures MadeBy(heads, call, date).Child? && MadeBy(heads, call, date).message == call.message
    ensures MadeBy(heads, call, date).parent == Root(map[], "init: " + call.branch, date)
  {
    var root := CP.Orphan(call.branch, date);
    var rel :| rel in call.files;
    OverlayHolds(root.tree, call.treePath, call.files);
    assert call.treePath + "/" + rel in CP.Stored(call, root);
    hide CP.Stored;
  }

  /** A sync whose Commit call gave up, or that met an error before it, leaves its row failed and without a commit. */
  lemma GivenUpAlone(s: State, w: nat, step: Step) returns (steps: seq<Step>, t: State)
    requires w in s.workers && KeyOf(s.workers[w]) in s.rows && (step == GiveUp(w) || step == Collect(w))
    requires step.GiveUp? || (s.workers[w].pc.Committing? && s.workers[w].pc.call in s.store.procs
                              && s.store.procs[s.workers[w].pc.call].pc == CP.Finished(CP.Failed))
    requires Enabled(s, step)
    ensures Leads(s, steps, t)
    ensures var worker := s.workers[w];
            t == s.(rows := s.rows[KeyOf(worker) := s.rows[KeyOf(worker)].(status := Failed, commit := None)],
                    workers := s.workers[w := worker.(pc := Stopped)])
  {
    var worker := s.workers[w];
    hide TagName, CP.Apply, ExtractVersion, CP.Enabled;
    assert Leads(s, [], s);
    steps, t := Taking(s, [], s, step);
    steps, t := Taking(s, steps, t, Write(w, Fine));
    assert t.workers == s.workers[w := worker.(pc := Stopped)];
  }

  /** A sync whose insert is refused without there being a row stops, and leaves none. */
  lemma InsertRefused(s: State, w: nat) returns (steps: seq<Step>, t: State)
    requires w in s.workers && s.workers[w].pc == Claiming && KeyOf(s.workers[w]) !in s.rows
    ensures Leads(s, steps, t) && t == s.(workers := s.workers[w := s.workers[w].(pc := Stopped)])
  {
    hide TagName, CP.Apply, ExtractVersion, CP.Enabled;
    assert Leads(s, [], s);
    steps, t := Taking(s, [], s, InsertRow(w, s.now, Before));
    steps, t := Taking(s, steps, t, Look(w));
    assert t.workers == s.workers[w := s.workers[w].(pc := Stopped)];
  }

  /** When only the reply to its tag call is lost, a sync leaves its row failed and its tag in place. */
  lemma TagReplyLost(s: State, w: nat) returns (steps: seq<Step>, t: State)
    requires w in s.workers && s.workers[w].pc.Tagging? && TagOf(s.workers[w]) !in s.tags && KeyOf(s.workers[w]) in s.rows
    ensures Leads(s, steps, t)
    ensures var worker := s.workers[w];
            var commit := worker.pc.commit;
            t == s.(rows := s.rows[KeyOf(worker) := s.rows[KeyOf(worker)].(status := Failed, commit := Some(commit))],
                    tags := s.tags[TagOf(worker) := commit], workers := s.workers[w := worker.(pc := Stopped)])
  {
    var worker := s.workers[w];
    hide TagName, CP.Apply, ExtractVersion;
    assert Leads(s, [], s);
    steps, t := Taking(s, [], s, Tag(w, After));
    steps, t := Taking(s, steps, t, Write(w, Fine));
    assert t.workers == s.workers[w := worker.(pc := Stopped)];
  }

  /** The next sync of that version needs no commit: it finds the tag and completes the row with the commit made before. */
  lemma NextSyncHeals(s: State, w: nat, v: nat) returns (steps: seq<Step>, u: State)
    requires w in s.workers && s.workers[w].pc.Tagging? && TagOf(s.workers[w]) !in s.tags && KeyOf(s.workers[w]) in s.rows
    requires v != w && v in s.workers && s.workers[v] == s.workers[w].(pc := Claiming)
    ensures Leads(s, steps, u)
    ensures var worker := s.workers[w];
            && u.store == s.store && u.tags == s.tags[TagOf(worker) := worker.pc.commit]
            && u.rows.Keys == s.rows.Keys && u.rows[KeyOf(worker)].status == Completed
            && u.rows[KeyOf(worker)].commit == Some(worker.pc.commit)
            && u.rows[KeyOf(worker)].treePath == s.rows[KeyOf(worker)].treePath
  {
    var lost, after := TagReplyLost(s, w);
    hide TagOf, KeyOf;
    var found;
    found, u := FoundTagAlone(after, v);
    Follows(s, lost, after, found, u);
    steps := lost + found;
  }

  lemma {:induction false} Follows(s: State, first: seq<Step>, t: State, second: seq<Step>, u: State)
    requires Leads(s, first, t) && Leads(t, second, u)
    ensures Leads(s, first + second, u)
    decreases |first|
  {
    hide Enabled, Apply;
    if first == [] {
      assert [] + second == second;
    } else {
      Follows(Apply(s, first[0]), first[1..], t, second, u);
      assert (first + second)[1..] == first[1..] + second;
    }
  }
}
