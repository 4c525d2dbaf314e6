/** Delivery requests and their operation rows under concurrent calls. Every call is cut into the reads and the
    single row writes it makes, so that any other call may come in between; what a call has read, it keeps. */
module Pipeline {
  import opened Strings
  import opened Lifecycle
  import opened Operations
  import opened Sync

  datatype Row = Row(op: Op, request: RequestState)

  datatype Phase = Import | Deploy

  /** What a call in flight still holds. A batch call keeps in mind the request it was checked against. */
  datatype Call =
    | Admitted(named: nat)                                              // the handler's check has passed
    | Writing(named: nat, phase: Phase, copies: map<nat, Row>, todo: set<nat>)      // batchUpdateOps, row by row
    | Triggered(named: nat, phase: Phase, copies: map<nat, Row>)                    // the background part of a batch
    | Syncing(dr: nat)                                                  // SyncDeliveryStatus, past its checks
    | Importing(dr: nat, copies: map<nat, Row>)                         // syncImportState
    | Settling(copies: map<nat, Row>)                                   // syncDeployState
    | Updating(id: nat, copy: Row)                                      // UpdateTenantOps
    | Deleting(id: nat)                                                 // DeleteTenantOps
    | SetStatus(dr: nat, status: AggregateStatus)                       // submit, cancel or roll-up, about to write
    | Approving(dr: nat, approver: string)

  /** used: ids ever handed out. done: rows some write has left with a complete import. */
  datatype State = State(drs: map<nat, Dr>, rows: map<nat, Row>, used: set<nat>, done: set<nat>, calls: map<nat, Call>)

  predicate Approved(dr: Dr) { dr.approvedAt && dr.approvedBy != "" }

  function RowsOf(rows: map<nat, Row>, dr: nat): map<nat, Row> {
    map id | id in rows && rows[id].op.dr == dr :: rows[id]
  }

  /** A row written back from a struct: columns that are zero in the copy keep what the table holds. The states and
      the identity columns of a copy are never zero. */
  function Updates(row: Row, copy: Row): Row {
    copy.(op := copy.op.(skipDeploy := row.op.skipDeploy || copy.op.skipDeploy,
                         tr := if copy.op.tr == "" then row.op.tr else copy.op.tr),
          request := if copy.request == RequestUnset then row.request else copy.request)
  }

  /** A row reaching the table. */
  function Put(s: State, id: nat, row: Row): State {
    s.(rows := s.rows[id := row],
       used := s.used + {id},
       done := if row.op.importState == ImportComplete then s.done + {id} else s.done)
  }

  function With(s: State, c: nat, call: Call): State { s.(calls := s.calls[c := call]) }

  function Without(s: State, c: nat): State { s.(calls := s.calls - {c}) }

  function Started(phase: Phase, row: Row): Row {
    row.(op := if phase == Import then row.op.(importState := ImportInProgress) else row.op.(deployState := DeployInProgress))
  }

  function Reverted(phase: Phase, row: Row): Row {
    row.(op := if phase == Import then row.op.(importState := ImportFailed) else row.op.(deployState := DeployFailed))
  }

  function AllStarted(phase: Phase, rows: map<nat, Row>, chosen: set<nat>): map<nat, Row> {
    map id | id in chosen && id in rows :: Started(phase, rows[id])
  }

  function AllReverted(phase: Phase, copies: map<nat, Row>, failing: set<nat>): map<nat, Row> {
    map id | id in failing && id in copies :: Reverted(phase, copies[id])
  }

  predicate Startable(phase: Phase, row: Row) {
    if phase == Import then row.op.importState in {ImportQueued, ImportFailed}
    else row.op.deployState in {DeployQueued, DeployFailed}
  }

  /** The statuses a request can be canceled from. */
  const CANCELLABLE := {AggPending, AggWaitingApprove, AggAwaitingImport, AggImportFailed, AggWaitingDeploy, AggDeployFailed}

  datatype Step =
    | CreateRequest(dr: nat, source: nat)
    | Insert(id: nat, row: Row)
    | GenerateTr(ids: set<nat>)
    | TrGenerated(id: nat, tr: string)
    | TrFailed(id: nat)
    | BeginUpdate(c: nat, id: nat)
    | EndUpdate(c: nat, tr: string, skipDeploy: bool)
    | BeginDelete(c: nat, id: nat)
    | EndDelete(c: nat)
    | Admit(c: nat, dr: nat)
    | BeginBatch(c: nat, phase: Phase, chosen: set<nat>)   // chosen: the rows that pass every check of the batch
    | WriteRow(c: nat, id: nat, fails: bool)
    | Trigger(c: nat)
    | Revert(c: nat, failing: set<nat>)
    | BeginSync(c: nat, dr: nat)
    | BeginImport(c: nat)
    | ImportRow(c: nat, id: nat, status: string)
    | ImportNew(c: nat, id: nat, added: nat, tenant: nat, status: string)
    | BeginSettle(c: nat)
    | SettleRow(c: nat, id: nat, answer: Option<Runtime>)
    | BeginRollup(c: nat, dr: nat, ops: seq<Op>)
    | BeginSubmit(c: nat, dr: nat)
    | BeginCancel(c: nat, dr: nat)
    | EndSetStatus(c: nat)
    | BeginApprove(c: nat, dr: nat, approver: string)
    | EndApprove(c: nat)
    | Return(c: nat)

  /** Edits of operations and the generation of their transport requests. */
  ghost predicate Edits(s: State, step: Step, t: State) {
    match step
    case CreateRequest(dr, source) => dr !in s.drs && t == s.(drs := s.drs[dr := Dr(AggPending, false, "", source)])
    case Insert(id, row) =>
      && id !in s.used && row.request == RequestPending && row.op.importState == ImportNotStarted
      && row.op.deployState == (if row.op.skipDeploy then DeployDisabled else DeployNotStarted)
      && t == Put(s, id, row)
    case GenerateTr(ids) =>
      t == s.(rows := map id | id in s.rows :: if id in ids then s.rows[id].(request := RequestTrGenerating) else s.rows[id])
    case TrGenerated(id, tr) =>
      id in s.rows && t == s.(rows := s.rows[id := s.rows[id].(op := s.rows[id].op.(tr := tr), request := RequestPending)])
    case TrFailed(id) => id in s.rows && t == s.(rows := s.rows[id := s.rows[id].(request := RequestTrFailed)])
    case BeginUpdate(c, id) =>
      c !in s.calls && id in s.rows && s.rows[id].request == RequestPending && t == With(s, c, Updating(id, s.rows[id]))
    case EndUpdate(c, tr, skipDeploy) =>
      && c in s.calls && s.calls[c].Updating?
      && var copy := s.calls[c].copy;
         t == Put(Without(s, c), s.calls[c].id,
                  copy.(op := copy.op.(tr := tr, skipDeploy := skipDeploy,
                                       deployState := if skipDeploy then DeployDisabled else DeployNotStarted)))
    case BeginDelete(c, id) =>
      && c !in s.calls && id in s.rows && s.rows[id].request in {RequestPending, RequestTrFailed}
      && t == With(s, c, Deleting(id))
    case EndDelete(c) =>
      c in s.calls && s.calls[c].Deleting? && t == Without(s, c).(rows := s.rows - {s.calls[c].id})
    case _ => false
  }

  /** The batch calls for import and deploy. */
  ghost predicate Batches(s: State, step: Step, t: State) {
    match step
    case Admit(c, dr) =>
      && c !in s.calls && dr in s.drs && s.drs[dr].status != AggCanceled && s.drs[dr].approvedBy != ""
      && t == With(s, c, Admitted(dr))
    case BeginBatch(c, phase, chosen) =>
      && c in s.calls && s.calls[c].Admitted?
      && chosen != {} && (forall id | id in chosen :: id in s.rows && Startable(phase, s.rows[id]))
      && t == With(s, c, Writing(s.calls[c].named, phase, AllStarted(phase, s.rows, chosen), chosen))
    case WriteRow(c, id, fails) =>
      && c in s.calls && s.calls[c].Writing? && id in s.calls[c].todo && id in s.calls[c].copies
      && var next := With(s, c, s.calls[c].(todo := s.calls[c].todo - {id}));
         t == if fails || id !in s.rows then next else Put(next, id, Updates(s.rows[id], s.calls[c].copies[id]))
    case Trigger(c) =>
      && c in s.calls && s.calls[c].Writing? && s.calls[c].todo == {}
      && t == With(s, c, Triggered(s.calls[c].named, s.calls[c].phase, s.calls[c].copies))
    case Revert(c, failing) =>
      && c in s.calls && s.calls[c].Triggered? && failing <= s.calls[c].copies.Keys
      && (s.calls[c].phase == Import ==> failing == s.calls[c].copies.Keys)
      && t == With(s, c, Writing(s.calls[c].named, s.calls[c].phase,
                                 AllReverted(s.calls[c].phase, s.calls[c].copies, failing), failing))
    case Return(c) => c in s.calls && t == Without(s, c)
    case _ => false
  }

  /** What SyncDeliveryStatus does. */
  ghost predicate Syncs(s: State, step: Step, t: State) {
    match step
    case BeginSync(c, dr) =>
      && c !in s.calls && dr in s.drs && MaySync(s.drs[dr])
      && t == With(s, c, Syncing(dr))
    case BeginImport(c) =>
      c in s.calls && s.calls[c].Syncing? && t == With(s, c, Importing(s.calls[c].dr, RowsOf(s.rows, s.calls[c].dr)))
    case ImportRow(c, id, status) =>
      && c in s.calls && s.calls[c].Importing? && id in s.calls[c].copies
      && var copy := s.calls[c].copies[id];
         var next := Reconcile(copy.op, status);
         t == if next == copy.op then s else Put(s, id, copy.(op := next))
    case ImportNew(c, id, added, tenant, status) =>
      && c in s.calls && s.calls[c].Importing? && id in s.calls[c].copies && added !in s.used
      && var next := Reconcile(NewOp(s.calls[c].copies[id].op, tenant), status);
         t == if next.importState == ImportNotStarted then s else Put(s, added, Row(next, RequestUnset))
    case BeginSettle(c) =>
      c in s.calls && s.calls[c].Importing? && t == With(s, c, Settling(RowsOf(s.rows, s.calls[c].dr)))
    case SettleRow(c, id, answer) =>
      && c in s.calls && s.calls[c].Settling? && id in s.calls[c].copies
      && var copy := s.calls[c].copies[id];
         var next := Settle(copy.op, answer);
         t == if next == copy.op || id !in s.rows then s
              else s.(rows := s.rows[id := s.rows[id].(op := s.rows[id].op.(deployState := next.deployState))])
    case _ => false
  }

  /** Calls that read and then write the status of a request. A submission or an approval that fails its checks on the
      transport requests or the approver does not get as far as the write. */
  ghost predicate Statuses(s: State, step: Step, t: State) {
    match step
    case BeginRollup(c, dr, ops) =>
      && c !in s.calls && dr in s.drs && (forall x :: x in ops <==> exists id :: id in s.rows && s.rows[id].op == x && x.dr == dr)
      && var status := Rollup(s.drs[dr], ops);
         t == if status == s.drs[dr].status then s else With(s, c, SetStatus(dr, status))
    case BeginSubmit(c, dr) =>
      && c !in s.calls && dr in s.drs && !s.drs[dr].approvedAt && s.drs[dr].status in {AggPending, AggWaitingApprove}
      && t == With(s, c, SetStatus(dr, AggWaitingApprove))
    case BeginCancel(c, dr) =>
      && c !in s.calls && dr in s.drs && s.drs[dr].status in CANCELLABLE
      && t == With(s, c, SetStatus(dr, AggCanceled))
    case EndSetStatus(c) =>
      && c in s.calls && s.calls[c].SetStatus? && s.calls[c].dr in s.drs
      && t == Without(s, c).(drs := s.drs[s.calls[c].dr := s.drs[s.calls[c].dr].(status := s.calls[c].status)])
    case BeginApprove(c, dr, approver) =>
      && c !in s.calls && dr in s.drs && s.drs[dr].status in {AggPending, AggWaitingApprove}
      && (exists id :: id in s.rows && s.rows[id].op.dr == dr)
      && t == With(s, c, Approving(dr, approver))
    case EndApprove(c) =>
      && c in s.calls && s.calls[c].Approving? && s.calls[c].dr in s.drs
      && var was := s.drs[s.calls[c].dr];
         var approver := if s.calls[c].approver == "" then was.approvedBy else s.calls[c].approver;
         t == Without(s, c).(drs := s.drs[s.calls[c].dr := was.(status := AggAwaitingImport, approvedAt := true, approvedBy := approver)])
    case _ => false
  }

  ghost predicate StepsTo(s: State, step: Step, t: State) {
    Edits(s, step, t) || Batches(s, step, t) || Syncs(s, step, t) || Statuses(s, step, t)
  }

  ghost predicate Next(s: State, t: State) {
    exists step :: StepsTo(s, step, t)
  }

  /** Any stretch of a run. */
  ghost predicate Steps(states: seq<State>) {
    |states| > 0 && forall i | 0 <= i < |states| - 1 :: Next(states[i], states[i + 1])
  }

  function Last(states: seq<State>): State
    requires states != []
  {
    states[|states| - 1]
  }

  ghost predicate Run(states: seq<State>) {
    Steps(states) && states[0] == State(map[], map[], {}, {}, map[])
  }

  // ----- Stretches of runs, put together -----

  ghost predicate Stretch(states: seq<State>, s: State) {
    Steps(states) && states[0] == s
  }

  lemma OneStep(s: State, step: Step, t: State)
    requires StepsTo(s, step, t)
    ensures Stretch([s, t], s)
  {
  }

  lemma Join(a: seq<State>, b: seq<State>, s: State)
    requires Stretch(a, s) && Stretch(b, Last(a))
    ensures Stretch(a + b[1..], s) && Last(a + b[1..]) == Last(b)
  {
    hide Next;
    var both := a + b[1..];
    forall i | 0 <= i < |both| - 1 ensures Next(both[i], both[i + 1]) {
      if i < |a| - 1 { assert Next(a[i], a[i + 1]); } else { assert Next(b[i + 1 - |a|], b[i + 1 - |a| + 1]); }
    }
  }

  lemma TwoSteps(s: State, step: Step, t: State, next: Step, u: State)
    requires StepsTo(s, step, t) && StepsTo(t, next, u)
    ensures Stretch([s, t, u], s)
  {
    OneStep(s, step, t);
    OneStep(t, next, u);
    hide StepsTo, Next;
    Join([s, t], [t, u], s);
    assert [s, t] + [t, u][1..] == [s, t, u];
  }
}
