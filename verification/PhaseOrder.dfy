/** No phase starts before the one it follows: nothing is imported for a request nobody approved, and nothing is
    queued for deployment or deployed before its import has been seen complete. */
module PhaseOrder {
  import opened Strings
  import opened Lifecycle
  import opened Operations
  import opened Sync
  import opened Pipeline

  const DEPLOYING := {DeployQueued, DeployInProgress, DeployFailed, DeployComplete}

  /** The row may stand in the table, or in some call's hands, under this id. */
  ghost predicate Ordered(s: State, id: nat, row: Row) {
    && (row.op.importState != ImportNotStarted ==> row.op.dr in s.drs && Approved(s.drs[row.op.dr]))
    && (row.op.deployState in DEPLOYING ==> id in s.done)
  }

  ghost predicate AllOrdered(s: State, rows: map<nat, Row>) {
    forall id | id in rows :: Ordered(s, id, rows[id])
  }

  /** A batch call holds nothing but rows it is moving. */
  ghost predicate UnderWay(phase: Phase, copies: map<nat, Row>) {
    forall id | id in copies :: if phase == Import then copies[id].op.importState in {ImportInProgress, ImportFailed}
                                else copies[id].op.deployState in {DeployInProgress, DeployFailed}
  }

  ghost predicate CallOk(s: State, call: Call) {
    match call
    case Writing(_, phase, copies, _) => AllOrdered(s, copies) && UnderWay(phase, copies)
    case Triggered(_, phase, copies) => AllOrdered(s, copies) && UnderWay(phase, copies)
    case Syncing(dr) => dr in s.drs && Approved(s.drs[dr])
    case Importing(dr, copies) => dr in s.drs && Approved(s.drs[dr]) && AllOrdered(s, copies) && forall id | id in copies :: copies[id].op.dr == dr
    case Settling(copies) => AllOrdered(s, copies)
    case Updating(id, copy) => Ordered(s, id, copy)
    case _ => true
  }

  ghost predicate Inv(s: State) {
    && AllOrdered(s, s.rows)
    && (forall c | c in s.calls :: CallOk(s, s.calls[c]))
    && (forall dr | dr in s.drs && s.drs[dr].approvedBy != "" :: s.drs[dr].approvedAt)
  }

  /** Approvals and completed imports are never forgotten. */
  ghost predicate Later(s: State, t: State) {
    && (forall dr | dr in s.drs && Approved(s.drs[dr]) :: dr in t.drs && Approved(t.drs[dr]))
    && s.done <= t.done
  }

  lemma StaysOk(s: State, t: State, call: Call)
    requires CallOk(s, call) && Later(s, t)
    ensures CallOk(t, call)
  {
  }

  /** A step that changes at most one call, and leaves rows in order. */
  lemma Keeps(s: State, t: State, c: nat)
    requires Inv(s) && Later(s, t) && AllOrdered(t, t.rows)
    requires forall d | d in t.calls :: (d in s.calls && t.calls[d] == s.calls[d]) || d == c
    requires c in t.calls ==> CallOk(t, t.calls[c])
    requires forall dr | dr in t.drs && t.drs[dr].approvedBy != "" :: t.drs[dr].approvedAt
    ensures Inv(t)
  {
    hide AllOrdered;
    forall d | d in t.calls ensures CallOk(t, t.calls[d]) {
      if d != c { StaysOk(s, t, s.calls[d]); }
    }
  }

  lemma PutKeeps(s: State, id: nat, row: Row)
    requires AllOrdered(s, s.rows) && Ordered(Put(s, id, row), id, row)
    ensures Later(s, Put(s, id, row)) && AllOrdered(Put(s, id, row), Put(s, id, row).rows)
  {
  }

  /** Steps that leave every row they keep in the phases it was in. */
  lemma SamePhases(s: State, t: State)
    requires AllOrdered(s, s.rows) && Later(s, t)
    requires forall id | id in t.rows :: id in s.rows && SameSubjectOrTr(s.rows[id].op, t.rows[id].op)
    ensures AllOrdered(t, t.rows)
  {
    forall id | id in t.rows ensures Ordered(t, id, t.rows[id]) {
      assert Ordered(s, id, s.rows[id]);
    }
  }

  predicate SameSubjectOrTr(a: Op, b: Op) {
    a.dr == b.dr && a.importState == b.importState && a.deployState == b.deployState
  }

  lemma RequestEditsKeep(s: State, step: Step, t: State)
    requires Inv(s) && Edits(s, step, t) && (step.CreateRequest? || step.GenerateTr? || step.TrGenerated? || step.TrFailed?)
    ensures Inv(t) && Later(s, t)
  {
    assert Later(s, t);
    SamePhases(s, t);
    hide AllOrdered;
    Keeps(s, t, 0);
  }

  lemma EndUpdateKeeps(s: State, c: nat, tr: string, skipDeploy: bool, t: State)
    requires Inv(s) && Edits(s, EndUpdate(c, tr, skipDeploy), t)
    ensures Inv(t) && Later(s, t)
  {
    assert CallOk(s, s.calls[c]);
    var id := s.calls[c].id;
    PutKeeps(Without(s, c), id, t.rows[id]);
    hide AllOrdered;
    Keeps(s, t, c);
  }

  lemma EditsKeep(s: State, step: Step, t: State)
    requires Inv(s) && Edits(s, step, t)
    ensures Inv(t) && Later(s, t)
  {
    if step.Insert? {
      PutKeeps(s, step.id, step.row);
      Keeps(s, t, 0);
    } else if step.EndUpdate? {
      EndUpdateKeeps(s, step.c, step.tr, step.skipDeploy, t);
    } else if step.BeginUpdate? || step.BeginDelete? || step.EndDelete? {
      Keeps(s, t, step.c);
    } else {
      RequestEditsKeep(s, step, t);
    }
  }

  lemma BatchesKeep(s: State, step: Step, t: State)
    requires Inv(s) && Batches(s, step, t)
    ensures Inv(t) && Later(s, t)
  {
    match step
    case Admit(c, _) => Keeps(s, t, c);
    case BeginBatch(c, phase, chosen) =>
      forall id | id in chosen ensures Ordered(t, id, Started(phase, s.rows[id])) {
        assert Ordered(s, id, s.rows[id]);
      }
      Keeps(s, t, c);
    case WriteRow(c, id, fails) => WriteKeeps(s, c, id, fails, t);
    case Trigger(c) =>
      assert CallOk(s, s.calls[c]);
      Keeps(s, t, c);
    case Revert(c, failing) => RevertKeeps(s, c, failing, t);
    case Return(c) => Keeps(s, t, c);
    case _ =>
  }

  lemma WriteKeeps(s: State, c: nat, id: nat, fails: bool, t: State)
    requires Inv(s) && Batches(s, WriteRow(c, id, fails), t)
    ensures Inv(t) && Later(s, t)
  {
    var next := With(s, c, s.calls[c].(todo := s.calls[c].todo - {id}));
    assert CallOk(s, s.calls[c]);
    Keeps(s, next, c);
    if t != next {
      assert Ordered(s, id, s.calls[c].copies[id]);
      PutKeeps(next, id, Updates(s.rows[id], s.calls[c].copies[id]));
      Keeps(next, t, c) by { StaysOk(next, t, next.calls[c]); }
    }
  }

  lemma RevertKeeps(s: State, c: nat, failing: set<nat>, t: State)
    requires Inv(s) && Batches(s, Revert(c, failing), t)
    ensures Inv(t) && Later(s, t)
  {
    assert CallOk(s, s.calls[c]);
    forall id | id in t.calls[c].copies ensures Ordered(t, id, t.calls[c].copies[id]) {
      assert Ordered(s, id, s.calls[c].copies[id]);
    }
    Keeps(s, t, c);
  }

  lemma SyncsKeep(s: State, step: Step, t: State)
    requires Inv(s) && Syncs(s, step, t)
    ensures Inv(t) && Later(s, t)
  {
    match step
    case BeginSync(c, _) => Keeps(s, t, c);
    case BeginImport(c) =>
      assert CallOk(s, s.calls[c]);
      Keeps(s, t, c);
    case ImportRow(c, id, status) => ImportRowKeeps(s, c, id, status, t);
    case ImportNew(c, id, added, tenant, status) => ImportNewKeeps(s, c, id, added, tenant, status, t);
    case BeginSettle(c) => Keeps(s, t, c);
    case SettleRow(c, id, answer) => SettleKeeps(s, c, id, answer, t);
    case _ =>
  }

  lemma ImportRowKeeps(s: State, c: nat, id: nat, status: string, t: State)
    requires Inv(s) && Syncs(s, ImportRow(c, id, status), t)
    ensures Inv(t) && Later(s, t)
  {
    hide DeriveImport;
    assert CallOk(s, s.calls[c]);
    var copy := s.calls[c].copies[id];
    var row := copy.(op := Reconcile(copy.op, status));
    assert Ordered(s, id, copy);
    if t != s {
      PutKeeps(s, id, row);
      Keeps(s, t, c) by { StaysOk(s, t, s.calls[c]); }
    }
  }

  lemma ImportNewKeeps(s: State, c: nat, id: nat, added: nat, tenant: nat, status: string, t: State)
    requires Inv(s) && Syncs(s, ImportNew(c, id, added, tenant, status), t)
    ensures Inv(t) && Later(s, t)
  {
    hide DeriveImport;
    assert CallOk(s, s.calls[c]);
    var row := Row(Reconcile(NewOp(s.calls[c].copies[id].op, tenant), status), RequestUnset);
    if t != s {
      PutKeeps(s, added, row);
      Keeps(s, t, c) by { StaysOk(s, t, s.calls[c]); }
    }
  }

  lemma SettleKeeps(s: State, c: nat, id: nat, answer: Option<Runtime>, t: State)
    requires Inv(s) && Syncs(s, SettleRow(c, id, answer), t)
    ensures Inv(t) && Later(s, t)
  {
    assert CallOk(s, s.calls[c]);
    assert Ordered(s, id, s.calls[c].copies[id]);
    if t != s {
      Keeps(s, t, c) by { StaysOk(s, t, s.calls[c]); }
    }
  }

  lemma StatusesKeep(s: State, step: Step, t: State)
    requires Inv(s) && Statuses(s, step, t)
    ensures Inv(t) && Later(s, t)
  {
    hide Rollup;
    assert Later(s, t);
    assert AllOrdered(t, t.rows) by { SamePhases(s, t); }
    hide AllOrdered, Later;
    match step
    case BeginRollup(c, _, _) => if t != s { Keeps(s, t, c); }
    case BeginSubmit(c, _) => Keeps(s, t, c);
    case BeginCancel(c, _) => Keeps(s, t, c);
    case EndSetStatus(c) => Keeps(s, t, c);
    case BeginApprove(c, _, _) => Keeps(s, t, c);
    case EndApprove(c) => Keeps(s, t, c);
    case _ =>
  }

  lemma NextKeeps(s: State, t: State)
    requires Inv(s) && Next(s, t)
    ensures Inv(t) && Later(s, t)
  {
    hide Inv, Later, Edits, Batches, Syncs, Statuses;
    var step :| StepsTo(s, step, t);
    if Edits(s, step, t) { EditsKeep(s, step, t); }
    else if Batches(s, step, t) { BatchesKeep(s, step, t); }
    else if Syncs(s, step, t) { SyncsKeep(s, step, t); }
    else { StatusesKeep(s, step, t); }
  }

  lemma {:induction false} RunKeeps(states: seq<State>, i: nat)
    requires Run(states) && i < |states|
    ensures Inv(states[i])
  {
    hide Next;
    if i > 0 {
      RunKeeps(states, i - 1);
      assert Next(states[i - 1], states[i - 1 + 1]);
      NextKeeps(states[i - 1], states[i]);
    }
  }

  /** What the history says is what the rows once showed. */
  ghost predicate ShownComplete(states: seq<State>, i: int, id: nat) {
    exists j :: 0 <= j <= i < |states| && id in states[j].rows && states[j].rows[id].op.importState == ImportComplete
  }

  /** A row joins the history only in a write that shows its import complete. */
  ghost predicate DoneByWrites(s: State, t: State) {
    forall id | id in t.done && id !in s.done :: id in t.rows && t.rows[id].op.importState == ImportComplete
  }

  lemma SyncsAreWrites(s: State, step: Step, t: State)
    requires Syncs(s, step, t)
    ensures DoneByWrites(s, t)
  {
    hide Reconcile, Settle, NewOp, RowsOf;
  }

  lemma OthersAreWrites(s: State, step: Step, t: State)
    requires Edits(s, step, t) || Batches(s, step, t) || Statuses(s, step, t)
    ensures DoneByWrites(s, t)
  {
    hide Rollup, Updates, RowsOf, Started, Reverted, Startable, Syncs;
  }

  lemma DoneGrowsByWrites(s: State, t: State)
    requires Next(s, t)
    ensures DoneByWrites(s, t)
  {
    hide Edits, Batches, Syncs, Statuses, DoneByWrites;
    var step :| StepsTo(s, step, t);
    if Syncs(s, step, t) { SyncsAreWrites(s, step, t); } else { OthersAreWrites(s, step, t); }
  }

  lemma {:induction false} DoneWasShown(states: seq<State>, i: nat, id: nat)
    requires Run(states) && i < |states| && id in states[i].done
    ensures ShownComplete(states, i, id)
  {
    hide Next;
    if i > 0 {
      assert Next(states[i - 1], states[i - 1 + 1]);
      if id in states[i - 1].done {
        DoneWasShown(states, i - 1, id);
        var j :| 0 <= j <= i - 1 && id in states[j].rows && states[j].rows[id].op.importState == ImportComplete;
      } else {
        DoneGrowsByWrites(states[i - 1], states[i]);
      }
    }
  }

  /** In every reachable state, however the calls interleave: a row whose import has begun belongs to an approved
      request, and a row whose deployment is queued, under way or over was shown with its import complete, then or
      earlier. */
  lemma PhaseOrder(states: seq<State>, i: nat, id: nat)
    requires Run(states) && i < |states| && id in states[i].rows
    ensures var op := states[i].rows[id].op;
            op.importState != ImportNotStarted ==> op.dr in states[i].drs && Approved(states[i].drs[op.dr])
    ensures states[i].rows[id].op.deployState in DEPLOYING ==> ShownComplete(states, i, id)
  {
    RunKeeps(states, i);
    assert Ordered(states[i], id, states[i].rows[id]);
    if states[i].rows[id].op.deployState in DEPLOYING { DoneWasShown(states, i, id); }
  }
}
