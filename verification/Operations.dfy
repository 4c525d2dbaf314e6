/** One artifact on one tenant, and what a single look at TMS or at the runtime does to it. */
module Operations {
  import opened Strings
  import opened Lifecycle
  import CpiVersion

  /** A row of artifact_tenant_operations, reduced to the columns that steer it. */
  datatype Op = Op(dr: nat, techId: string, version: string, tenant: nat, tr: string, skipDeploy: bool,
                   importState: ImportState, deployState: DeployState)

  datatype Runtime = Runtime(version: string, status: string)

  /** What a TMS node status does to the row: unchanged when it brings no news, and an import under way
      is never set back to queued or not started. */
  function Reconcile(op: Op, status: string): Op {
    var state := DeriveImport(status);
    if state == op.importState then op
    else if op.importState == ImportInProgress && (state == ImportQueued || state == ImportNotStarted) then op
    else op.(importState := state,
             deployState := if state == ImportComplete && op.deployState == DeployNotStarted
                            then (if op.skipDeploy then DeployDisabled else DeployQueued)
                            else op.deployState)
  }

  /** The row created when a transport request first shows up at a tenant. */
  function NewOp(op: Op, tenant: nat): Op {
    op.(tenant := tenant, importState := ImportNotStarted,
        deployState := if op.skipDeploy then DeployDisabled else DeployNotStarted)
  }

  /** What the runtime answer does to a row whose deploy is under way. A runtime status nobody knows
      is an empty update and leaves the row alone, as does a runtime still on a lower version. */
  function Settle(op: Op, answer: Option<Runtime>): Op {
    if op.deployState != DeployInProgress || answer.None? then op
    else
      var rt := answer.value;
      if rt.version == op.version then
        if rt.status == "STARTED" then op.(deployState := DeployComplete)
        else if rt.status == "ERROR" then op.(deployState := DeployFailed)
        else op
      else if CpiVersion.Compare(rt.version, op.version) > 0 then op.(deployState := DeployFailed)
      else op
  }

  /** What a row is about, apart from its two states. */
  predicate SameSubject(a: Op, b: Op) {
    a == b.(importState := a.importState, deployState := a.deployState)
  }

  /** What a TMS status makes of a row. A row already imported is left alone when told so again; one whose import is under
      way is not told to wait; a deployment becomes due with the import. */
  predicate Looked(was: Op, status: string, now: Op) {
    && (SaysDone(status) && was.importState == ImportComplete ==> now == was)
    && (SaysDone(status) && was.importState != ImportComplete ==>
          now == was.(importState := ImportComplete,
                      deployState := if was.deployState != DeployNotStarted then was.deployState
                                     else if was.skipDeploy then DeployDisabled else DeployQueued))
    && (SaysFailed(status) ==> now == was.(importState := ImportFailed))
    && (SaysRunning(status) ==> now == was.(importState := ImportInProgress))
    && (SaysQueued(status) ==> now == if was.importState == ImportInProgress then was else was.(importState := ImportQueued))
    && (!SaysDone(status) && !SaysFailed(status) && !SaysRunning(status) && !SaysQueued(status) ==>
          now == if was.importState == ImportInProgress then was else was.(importState := ImportNotStarted))
  }

  lemma ReconcileLooks(op: Op, status: string)
    ensures Looked(op, status, Reconcile(op, status))
  {
    DeriveImportIff(status);
    hide SaysDone, SaysFailed, SaysRunning, SaysQueued, DeriveImport;
  }

  /** What a runtime's answer makes of a row: a deployment under way is over exactly when the runtime runs this very
      version, has failed exactly when this version did or a higher one has replaced it, and is otherwise still under way;
      nothing else about the row changes. */
  ghost predicate HeardOf(was: Op, answer: Option<Runtime>, now: Op) {
    && now == was.(deployState := now.deployState)
    && (was.deployState != DeployInProgress ==> now == was)
    && (was.deployState == DeployInProgress ==>
          && now.deployState in {DeployInProgress, DeployComplete, DeployFailed}
          && (now.deployState == DeployComplete <==> answer == Some(Runtime(was.version, "STARTED")))
          && (now.deployState == DeployFailed <==>
                || answer == Some(Runtime(was.version, "ERROR"))
                || exists version, status :: answer == Some(Runtime(version, status)) && CpiVersion.Compare(version, was.version) > 0))
  }

  lemma SettleHears(op: Op, answer: Option<Runtime>)
    ensures HeardOf(op, answer, Settle(op, answer))
  {
    CpiVersion.CompareAntisymmetric(op.version, op.version);
    hide CpiVersion.Compare;
    if answer.Some? { assert answer == Some(Runtime(answer.value.version, answer.value.status)); }
  }

  /** A runtime on a higher release has replaced the deployment, one on a lower release has not. */
  lemma HigherReplaces(op: Op, version: string, status: string)
    requires op.deployState == DeployInProgress && version != op.version
    ensures !CpiVersion.TripleAtMost(version, op.version) ==> Settle(op, Some(Runtime(version, status))).deployState == DeployFailed
    ensures !CpiVersion.TripleAtMost(op.version, version) ==> Settle(op, Some(Runtime(version, status))) == op
  {
    CpiVersion.CompareRefinesTriple(version, op.version);
    CpiVersion.CompareRefinesTriple(op.version, version);
    CpiVersion.CompareAntisymmetric(version, op.version);
    hide CpiVersion.Compare, CpiVersion.TripleAtMost;
  }

  /** Looking again at the same answers, after the deploy phase has been looked at too, brings nothing new. */
  lemma LookingTwice(op: Op, status: string, answer: Option<Runtime>)
    ensures var once := Settle(Reconcile(op, status), answer);
            Reconcile(once, status) == once && Settle(once, answer) == once
  {
    hide DeriveImport, CpiVersion.Compare;
  }

  lemma SettleKeepsSubject(op: Op, answer: Option<Runtime>)
    ensures SameSubject(Settle(op, answer), op)
  {
    hide CpiVersion.Compare;
  }

  lemma SettleTwice(op: Op, answer: Option<Runtime>)
    ensures Settle(Settle(op, answer), answer) == Settle(op, answer)
  {
    hide CpiVersion.Compare;
  }
}
