/** The reclaim statements keep the first claimant's tree path. When an artifact has moved to
    another package by the time a failed row is taken over, the completed row may point at a
    directory its commit never wrote. This says exactly when, and shows such a run. */
module GitMoved {
  import opened Strings
  import opened Paths
  import opened GitObjects
  import opened Manifest
  import opened Snapshots
  import opened GitSync
  import opened GitTruth
  import opened GitClaims
  import opened GitAlone
  import CP = CommitProtocol

  /** A fresh commit made for one package reads as the version under the row's package exactly when
      they are the same package, or the version was already stored under the row's package before. */
  lemma FreshCommitTruthIff(w: Worker, yaml: string, message: string, tip: Commit, date: int, rowPackage: string)
    requires WellNamed(w.req) && ExtractVersion(w.req.files) == Some(w.version) && '/' !in rowPackage
    ensures var made := CP.NewCommit(CallOf(w, yaml, message), tip, date);
            Carries(made, rowPackage + "/" + w.req.artifact, w.version)
            <==> rowPackage == w.req.packageId || Carries(tip, rowPackage + "/" + w.req.artifact, w.version)
  {
    var call := CallOf(w, yaml, message);
    var commit := CP.NewCommit(call, tip, date);
    if rowPackage == w.req.packageId {
      OverlayHolds(tip.tree, call.treePath, call.files);
      HoldingCarries(commit, Dir(w.req), call.files, w.version);
    } else {
      var other := rowPackage + "/" + w.req.artifact;
      forall p ensures !(Under(call.treePath, p) && Under(other, p)) {
        if Under(call.treePath, p) && Under(other, p) {
          TwoLevelDisjoint(p, w.req.packageId, w.req.artifact, rowPackage, w.req.artifact);
        }
      }
      ReadElsewhere(tip.tree, call.treePath, call.files, other);
    }
  }

  ghost predicate Reachable(s: State) {
    exists states, steps :: Run(states, steps) && states[|states| - 1] == s
  }

  lemma ReachableStep(s: State, step: Step)
    requires Reachable(s) && Enabled(s, step)
    ensures Reachable(Apply(s, step))
  {
    var states, steps :| Run(states, steps) && states[|states| - 1] == s;
    assert Run(states + [Apply(s, step)], steps + [step]);
  }

  /** An empty repository. */
  const EMPTY := CP.State(map[], map[], map[], map[])

  /** A first sync that claims the row and gives up leaves it failed under its own directory. */
  lemma FailedRow(req: Request) returns (s: State)
    requires WellNamed(req) && ExtractVersion(req.files).Some?
    ensures Reachable(s) && s.tags == map[] && s.store == EMPTY && s.workers.Keys == {0} && s.now == 0
    ensures var key := Key(req.artifact, ExtractVersion(req.files).value, req.tenantId);
            IsFailed(s.rows, key) && s.rows[key].treePath == Dir(req)
  {
    s := BeganOn(req);
    var w := s.workers[0];
    s := Inserted(s);
    s := Stepped(s, GiveUp(0));
    s := Stepped(s, Write(0, Fine));
  }

  lemma BeganOn(req: Request) returns (s: State)
    requires WellNamed(req) && ExtractVersion(req.files).Some?
    ensures Reachable(s)
    ensures s == State(0, map[], map[], EMPTY, map[0 := Worker(req, ExtractVersion(req.files).value, Claiming)])
  {
    var s0 := State(0, map[], map[], EMPTY, map[]);
    assert Run([s0], []);
    assert [s0][|[s0]| - 1] == s0;
    assert Reachable(s0);
    s := Stepped(s0, Begin(0, req));
  }

  lemma Inserted(s: State) returns (t: State)
    requires Reachable(s) && s.rows == map[] && 0 in s.workers && s.workers[0].pc == Claiming && s.now == 0
    ensures Reachable(t)
    ensures t == At(s.(rows := map[KeyOf(s.workers[0]) := FirstRow(s.workers[0], 0)]), 0, Checking(0))
  {
    t := Stepped(s, InsertRow(0, 0, Fine));
  }

  lemma Stepped(s: State, step: Step) returns (t: State)
    requires Reachable(s) && Enabled(s, step)
    ensures t == Apply(s, step) && Reachable(t)
  {
    ReachableStep(s, step);
    t := Apply(s, step);
  }

  lemma {:induction false} LeadsToReachable(s: State, steps: seq<Step>, t: State)
    requires Reachable(s) && Leads(s, steps, t)
    ensures Reachable(t)
    decreases |steps|
  {
    hide Reachable, Enabled, Apply;
    if steps != [] {
      ReachableStep(s, steps[0]);
      LeadsToReachable(Apply(s, steps[0]), steps[1..], t);
    }
  }

  /** For any artifact that moves from one package to another between a failed attempt and the next,
      some run ends with a completed row that does not carry its version. */
  lemma MovedPackageLies(before: Request, after: Request) returns (s: State, key: Key)
    requires WellNamed(before) && WellNamed(after)
    requires ExtractVersion(before.files).Some? && ExtractVersion(after.files) == ExtractVersion(before.files)
    requires before.artifact == after.artifact && before.tenantId == after.tenantId
    requires before.packageId != after.packageId
    ensures Reachable(s) && key in s.rows && s.rows[key].status == Completed
    ensures !Truthful(key, s.rows[key])
  {
    s := FailedRow(before);
    s := Stepped(s, Begin(1, after));
    var w := s.workers[1];
    key := KeyOf(w);
    var root := CP.Orphan("tenant/" + w.req.tenantName, 0);
    FreshCommitTruthIff(w, "", "", root, 0, before.packageId);
    assert !Carries(root, before.packageId + "/" + w.req.artifact, w.version);
    var steps, t := SyncAlone(s, 1, 0, "", "", 0);
    LeadsToReachable(s, steps, t);
    hide Reachable, Leads, Enabled, Apply, ExtractVersion, WellNamed, TagName, Carries, CP.Stored;
    s := t;
  }
}
