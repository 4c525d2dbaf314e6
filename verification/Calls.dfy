/** Edits of operations, submission, approval and cancellation that nobody disturbs: when each is let through, and what it
    does. */
module Calls {
  import opened Strings
  import opened Lifecycle
  import opened Sync
  import opened Pipeline

  /** Under way, over, or not known. */
  predicate Unstoppable(status: AggregateStatus) {
    || status.AggImporting? || status.AggDeploying? || status.AggInProgress?
    || status.AggDeployed? || status.AggCanceled? || status.AggFailed?
    || status.AggUnset? || status.AggUnknown?
  }

  /** A cancellation is let through exactly when the request is neither under way nor over. */
  lemma CancelIff(s: State, c: nat, dr: nat)
    requires c !in s.calls && dr in s.drs
    ensures (exists t :: Statuses(s, BeginCancel(c, dr), t)) <==> !Unstoppable(s.drs[dr].status)
  {
    if !Unstoppable(s.drs[dr].status) { assert Statuses(s, BeginCancel(c, dr), With(s, c, SetStatus(dr, AggCanceled))); }
  }

  lemma SubmitIff(s: State, c: nat, dr: nat)
    requires c !in s.calls && dr in s.drs
    ensures (exists t :: Statuses(s, BeginSubmit(c, dr), t))
            <==> !s.drs[dr].approvedAt && (s.drs[dr].status == AggPending || s.drs[dr].status == AggWaitingApprove)
  {
    if !s.drs[dr].approvedAt && (s.drs[dr].status == AggPending || s.drs[dr].status == AggWaitingApprove) {
      assert Statuses(s, BeginSubmit(c, dr), With(s, c, SetStatus(dr, AggWaitingApprove)));
    }
  }

  /** An approval needs a request that is pending or submitted, with an operation in it. */
  lemma ApproveIff(s: State, c: nat, dr: nat, approver: string)
    requires c !in s.calls && dr in s.drs
    ensures (exists t :: Statuses(s, BeginApprove(c, dr, approver), t))
            <==> (s.drs[dr].status == AggPending || s.drs[dr].status == AggWaitingApprove)
                 && exists id :: id in s.rows && s.rows[id].op.dr == dr
  {
    if (s.drs[dr].status == AggPending || s.drs[dr].status == AggWaitingApprove) && exists id :: id in s.rows && s.rows[id].op.dr == dr {
      assert Statuses(s, BeginApprove(c, dr, approver), With(s, c, Approving(dr, approver)));
    }
  }

  /** Let through and left alone, a call that sets the status does just that. */
  lemma StatusSet(s: State, step: Step, c: nat, dr: nat, status: AggregateStatus) returns (states: seq<State>)
    requires c !in s.calls && dr in s.drs && Statuses(s, step, With(s, c, SetStatus(dr, status)))
    ensures Stretch(states, s) && Last(states) == s.(drs := s.drs[dr := s.drs[dr].(status := status)])
  {
    var mid, t := With(s, c, SetStatus(dr, status)), s.(drs := s.drs[dr := s.drs[dr].(status := status)]);
    assert t.calls == mid.calls - {c};
    assert Statuses(mid, EndSetStatus(c), t);
    hide Statuses;
    TwoSteps(s, step, mid, EndSetStatus(c), t);
    states := [s, mid, t];
  }

  lemma CancelAlone(s: State, c: nat, dr: nat) returns (states: seq<State>)
    requires c !in s.calls && dr in s.drs && !Unstoppable(s.drs[dr].status)
    ensures Stretch(states, s) && Last(states) == s.(drs := s.drs[dr := s.drs[dr].(status := AggCanceled)])
  {
    assert Statuses(s, BeginCancel(c, dr), With(s, c, SetStatus(dr, AggCanceled)));
    states := StatusSet(s, BeginCancel(c, dr), c, dr, AggCanceled);
  }

  lemma SubmitAlone(s: State, c: nat, dr: nat) returns (states: seq<State>)
    requires c !in s.calls && dr in s.drs && !s.drs[dr].approvedAt
    requires s.drs[dr].status == AggPending || s.drs[dr].status == AggWaitingApprove
    ensures Stretch(states, s) && Last(states) == s.(drs := s.drs[dr := s.drs[dr].(status := AggWaitingApprove)])
  {
    assert Statuses(s, BeginSubmit(c, dr), With(s, c, SetStatus(dr, AggWaitingApprove)));
    states := StatusSet(s, BeginSubmit(c, dr), c, dr, AggWaitingApprove);
  }

  /** An approval without a name leaves the approver that is there. */
  lemma ApproveAlone(s: State, c: nat, dr: nat, approver: string, id: nat) returns (states: seq<State>)
    requires c !in s.calls && dr in s.drs && id in s.rows && s.rows[id].op.dr == dr
    requires s.drs[dr].status == AggPending || s.drs[dr].status == AggWaitingApprove
    ensures Stretch(states, s)
    ensures Last(states) == s.(drs := s.drs[dr := Dr(AggAwaitingImport, true, if approver == "" then s.drs[dr].approvedBy else approver,
                                                     s.drs[dr].sourceTenant)])
  {
    var name := if approver == "" then s.drs[dr].approvedBy else approver;
    var mid, t := With(s, c, Approving(dr, approver)), s.(drs := s.drs[dr := Dr(AggAwaitingImport, true, name, s.drs[dr].sourceTenant)]);
    assert t.calls == mid.calls - {c};
    assert Statuses(s, BeginApprove(c, dr, approver), mid) && Statuses(mid, EndApprove(c), t);
    hide Statuses;
    TwoSteps(s, BeginApprove(c, dr, approver), mid, EndApprove(c), t);
    states := [s, mid, t];
  }

  // ----- Edits -----

  /** An operation may be changed exactly while it is pending, */
  lemma UpdateIff(s: State, c: nat, id: nat)
    requires c !in s.calls && id in s.rows
    ensures (exists t :: Edits(s, BeginUpdate(c, id), t)) <==> s.rows[id].request == RequestPending
  {
    if s.rows[id].request == RequestPending { assert Edits(s, BeginUpdate(c, id), With(s, c, Updating(id, s.rows[id]))); }
  }

  /** and deleted, besides, when its transport request could not be made. */
  lemma DeleteIff(s: State, c: nat, id: nat)
    requires c !in s.calls && id in s.rows
    ensures (exists t :: Edits(s, BeginDelete(c, id), t)) <==> s.rows[id].request == RequestPending || s.rows[id].request == RequestTrFailed
  {
    if s.rows[id].request == RequestPending || s.rows[id].request == RequestTrFailed {
      assert Edits(s, BeginDelete(c, id), With(s, c, Deleting(id)));
    }
  }

  lemma EditsStep(s: State, step: Step, t: State)
    requires Edits(s, step, t)
    ensures StepsTo(s, step, t)
  {
  }

  /** A changed operation has the new transport request and the deployment its new switch asks for, and is otherwise as it
      was. */
  lemma UpdateAlone(s: State, c: nat, id: nat, tr: string, skipDeploy: bool) returns (states: seq<State>)
    requires c !in s.calls && id in s.rows && s.rows[id].request == RequestPending
    ensures Stretch(states, s)
    ensures Last(states) == Put(s, id, s.rows[id].(op := s.rows[id].op.(tr := tr, skipDeploy := skipDeploy,
                                                                        deployState := if skipDeploy then DeployDisabled else DeployNotStarted)))
  {
    var row := s.rows[id].(op := s.rows[id].op.(tr := tr, skipDeploy := skipDeploy,
                                                deployState := if skipDeploy then DeployDisabled else DeployNotStarted));
    var mid, t := With(s, c, Updating(id, s.rows[id])), Put(s, id, row);
    assert t.calls == mid.calls - {c};
    assert Edits(s, BeginUpdate(c, id), mid) && Edits(mid, EndUpdate(c, tr, skipDeploy), t);
    hide Edits;
    EditsStep(s, BeginUpdate(c, id), mid);
    EditsStep(mid, EndUpdate(c, tr, skipDeploy), t);
    hide StepsTo;
    TwoSteps(s, BeginUpdate(c, id), mid, EndUpdate(c, tr, skipDeploy), t);
    states := [s, mid, t];
  }

  lemma DeleteAlone(s: State, c: nat, id: nat) returns (states: seq<State>)
    requires c !in s.calls && id in s.rows && (s.rows[id].request == RequestPending || s.rows[id].request == RequestTrFailed)
    ensures Stretch(states, s) && Last(states) == s.(rows := s.rows - {id})
  {
    var mid, t := With(s, c, Deleting(id)), s.(rows := s.rows - {id});
    assert t.calls == mid.calls - {c};
    assert Edits(s, BeginDelete(c, id), mid) && Edits(mid, EndDelete(c), t);
    hide Edits;
    EditsStep(s, BeginDelete(c, id), mid);
    EditsStep(mid, EndDelete(c), t);
    hide StepsTo;
    TwoSteps(s, BeginDelete(c, id), mid, EndDelete(c), t);
    states := [s, mid, t];
  }

  /** The operation once its transport request has been made, or could not be. */
  function Generated(row: Row, tr: Option<string>): Row {
    match tr
    case Some(number) => Row(row.op.(tr := number), RequestPending)
    case None => Row(row.op, RequestTrFailed)
  }

  /** Making a transport request for an operation leaves it pending with the request, or failed as it was. */
  lemma GenerateAlone(s: State, id: nat, tr: Option<string>) returns (states: seq<State>)
    requires id in s.rows
    ensures Stretch(states, s) && Last(states) == s.(rows := s.rows[id := Generated(s.rows[id], tr)])
  {
    var mid := s.(rows := map i | i in s.rows :: if i in {id} then s.rows[i].(request := RequestTrGenerating) else s.rows[i]);
    var t := s.(rows := s.rows[id := Generated(s.rows[id], tr)]);
    var step := if tr.Some? then TrGenerated(id, tr.value) else TrFailed(id);
    assert t.rows == mid.rows[id := t.rows[id]];
    assert Edits(s, GenerateTr({id}), mid) && Edits(mid, step, t);
    hide Edits;
    EditsStep(s, GenerateTr({id}), mid);
    EditsStep(mid, step, t);
    hide StepsTo;
    TwoSteps(s, GenerateTr({id}), mid, step, t);
    states := [s, mid, t];
  }
}
