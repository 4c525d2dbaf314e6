/** SyncDeliveryStatus for one delivery request. A row's id is its position in the table;
    queries hand rows out in that order. */
module Sync {
  import opened Strings
  import opened Lifecycle
  import opened Operations
  import CpiVersion

  datatype Tenant = Tenant(id: nat, node: nat)

  /** What TMS, the runtimes and the configuration say. A transport request missing from statuses,
      and a runtime missing from runtime, could not be fetched. */
  datatype Env = Env(statuses: map<string, map<nat, string>>, ruleNodes: set<nat>, tenants: seq<Tenant>,
                     runtime: map<(nat, string), Runtime>)

  datatype Dr = Dr(status: AggregateStatus, approvedAt: bool, approvedBy: string, sourceTenant: nat)

  /** The query by node skips a zero id, so node 0 finds the first tenant whatever its node. */
  function TenantByNode(tenants: seq<Tenant>, node: nat): Option<nat>
    decreases |tenants|
  {
    if tenants == [] then None
    else if node == 0 || tenants[0].node == node then Some(tenants[0].id)
    else TenantByNode(tenants[1..], node)
  }

  /** Primary keys are unique and TMS hands out positive node ids. */
  ghost predicate Proper(env: Env) {
    && (forall i, j | 0 <= i < j < |env.tenants| :: env.tenants[i].id != env.tenants[j].id)
    && (forall tr | tr in env.statuses :: 0 !in env.statuses[tr])
  }

  lemma {:induction false} TenantByNodeFinds(tenants: seq<Tenant>, node: nat)
    ensures node != 0 && TenantByNode(tenants, node).Some? ==>
              exists i :: 0 <= i < |tenants| && tenants[i] == Tenant(TenantByNode(tenants, node).value, node)
  {
    if tenants != [] && node != 0 && tenants[0].node != node {
      TenantByNodeFinds(tenants[1..], node);
      if TenantByNode(tenants, node).Some? {
        var i :| 0 <= i < |tenants[1..]| && tenants[1..][i] == Tenant(TenantByNode(tenants, node).value, node);
        assert tenants[i + 1] == tenants[1..][i];
      }
    } else if tenants != [] && node != 0 {
      assert tenants[0] == Tenant(tenants[0].id, node);
    }
  }

  /** The status that node reports for a transport request concerns the tenant. */
  predicate Concerns(env: Env, tr: string, node: nat, tenant: nat) {
    tr in env.statuses && node in env.statuses[tr] && node in env.ruleNodes && TenantByNode(env.tenants, node) == Some(tenant)
  }

  lemma OneNodeOnly(env: Env, tr: string, m: nat, n: nat, tenant: nat)
    requires Proper(env) && Concerns(env, tr, m, tenant) && Concerns(env, tr, n, tenant)
    ensures m == n
  {
    TenantByNodeFinds(env.tenants, m);
    TenantByNodeFinds(env.tenants, n);
  }

  ghost function StatusFor(env: Env, tr: string, tenant: nat): Option<string> {
    if exists node :: Concerns(env, tr, node, tenant)
    then var node :| Concerns(env, tr, node, tenant); Some(env.statuses[tr][node])
    else None
  }

  lemma StatusIs(env: Env, tr: string, node: nat, tenant: nat)
    requires Proper(env) && Concerns(env, tr, node, tenant)
    ensures StatusFor(env, tr, tenant) == Some(env.statuses[tr][node])
  {
    var other :| Concerns(env, tr, other, tenant) && StatusFor(env, tr, tenant) == Some(env.statuses[tr][other]);
    OneNodeOnly(env, tr, node, other, tenant);
  }

  // ----- What one import sync does to the table -----

  type Pair = (nat, string)

  function PairOf(op: Op): Pair { (op.tenant, op.tr) }

  /** No earlier row is for the same tenant and transport request. */
  ghost predicate FirstOfPair(rows: seq<Op>, i: nat)
    requires i < |rows|
  {
    forall j | 0 <= j < i :: PairOf(rows[j]) != PairOf(rows[i])
  }

  ghost predicate FirstOfTr(rows: seq<Op>, i: nat)
    requires i < |rows|
  {
    forall j | 0 <= j < i :: rows[j].tr != rows[i].tr
  }

  ghost predicate HasPair(rows: seq<Op>, pair: Pair) {
    exists i :: 0 <= i < |rows| && PairOf(rows[i]) == pair
  }

  /** The rows so far, when the pairs in seen have been looked at: the first row of each is reconciled. */
  ghost function RowAfter(rows: seq<Op>, env: Env, seen: set<Pair>, i: nat): Op
    requires i < |rows|
  {
    var status := StatusFor(env, rows[i].tr, rows[i].tenant);
    if FirstOfPair(rows, i) && PairOf(rows[i]) in seen && status.Some? then Reconcile(rows[i], status.value) else rows[i]
  }

  /** x is the row to be added for its tenant and transport request. */
  ghost predicate IsNew(rows: seq<Op>, env: Env, x: Op) {
    && !HasPair(rows, PairOf(x))
    && StatusFor(env, x.tr, x.tenant).Some?
    && x.importState != ImportNotStarted
    && exists i :: 0 <= i < |rows| && FirstOfTr(rows, i) && rows[i].tr == x.tr
                   && x == Reconcile(NewOp(rows[i], x.tenant), StatusFor(env, x.tr, x.tenant).value)
  }

  /** after is the table once the pairs in seen have been looked at, in any order. */
  ghost predicate Progress(rows: seq<Op>, env: Env, seen: set<Pair>, after: seq<Op>) {
    && |rows| <= |after|
    && (forall i | 0 <= i < |rows| :: after[i] == RowAfter(rows, env, seen, i))
    && (forall k | |rows| <= k < |after| :: IsNew(rows, env, after[k]) && PairOf(after[k]) in seen)
    && (forall x | IsNew(rows, env, x) && PairOf(x) in seen :: x in after[|rows|..])
    && (forall j, k | |rows| <= j < k < |after| :: PairOf(after[j]) != PairOf(after[k]))
  }

  /** Every pair that some answer concerns has been looked at. */
  ghost predicate Complete(rows: seq<Op>, env: Env, seen: set<Pair>) {
    forall tenant: nat, i | 0 <= i < |rows| && StatusFor(env, rows[i].tr, tenant).Some? :: (tenant, rows[i].tr) in seen
  }

  ghost predicate Imported(rows: seq<Op>, env: Env, after: seq<Op>) {
    exists seen :: Progress(rows, env, seen, after) && Complete(rows, env, seen)
  }

  /** Looking at one more pair that has a row. */
  lemma SeenOld(rows: seq<Op>, env: Env, seen: set<Pair>, after: seq<Op>, i: nat, status: string)
    requires Progress(rows, env, seen, after) && i < |rows| && FirstOfPair(rows, i) && PairOf(rows[i]) !in seen
    requires StatusFor(env, rows[i].tr, rows[i].tenant) == Some(status)
    ensures Progress(rows, env, seen + {PairOf(rows[i])}, after[i := Reconcile(rows[i], status)])
    ensures after[i] == rows[i]
  {
    hide Reconcile, StatusFor;
    var next := after[i := Reconcile(rows[i], status)];
    assert HasPair(rows, PairOf(rows[i]));
    forall x | IsNew(rows, env, x) && PairOf(x) in seen + {PairOf(rows[i])} ensures x in next[|rows|..] {
      assert next[|rows|..] == after[|rows|..];
    }
    forall j | 0 <= j < |rows| && j != i ensures next[j] == RowAfter(rows, env, seen + {PairOf(rows[i])}, j) {
      assert after[j] == RowAfter(rows, env, seen, j);
    }
  }

  /** Looking at one more pair that has none, when it brings a row. */
  lemma SeenNew(rows: seq<Op>, env: Env, seen: set<Pair>, after: seq<Op>, i: nat, tenant: nat, status: string)
    requires Progress(rows, env, seen, after) && i < |rows| && FirstOfTr(rows, i)
    requires !HasPair(rows, (tenant, rows[i].tr)) && (tenant, rows[i].tr) !in seen
    requires StatusFor(env, rows[i].tr, tenant) == Some(status)
    requires Reconcile(NewOp(rows[i], tenant), status).importState != ImportNotStarted
    ensures Progress(rows, env, seen + {(tenant, rows[i].tr)}, after + [Reconcile(NewOp(rows[i], tenant), status)])
  {
    var x := Reconcile(NewOp(rows[i], tenant), status);
    assert PairOf(x) == (tenant, rows[i].tr);
    hide StatusFor, Reconcile, NewOp;
    var next := after + [x];
    var wider := seen + {PairOf(x)};
    assert IsNew(rows, env, x);
    SeenRows(rows, env, seen, after, PairOf(x));
    forall y | IsNew(rows, env, y) && PairOf(y) in wider ensures y in next[|rows|..] {
      if PairOf(y) in seen {
        assert y in after[|rows|..];
        assert after[|rows|..] <= next[|rows|..];
      } else {
        OneNewPerPair(rows, env, x, y);
        assert next[|rows|..][|next| - 1 - |rows|] == x;
      }
    }
  }

  /** ... and when it brings none. */
  lemma SeenNothing(rows: seq<Op>, env: Env, seen: set<Pair>, after: seq<Op>, i: nat, tenant: nat, status: string)
    requires Progress(rows, env, seen, after) && i < |rows| && FirstOfTr(rows, i)
    requires !HasPair(rows, (tenant, rows[i].tr)) && (tenant, rows[i].tr) !in seen
    requires StatusFor(env, rows[i].tr, tenant) == Some(status)
    requires Reconcile(NewOp(rows[i], tenant), status).importState == ImportNotStarted
    ensures Progress(rows, env, seen + {(tenant, rows[i].tr)}, after)
  {
    hide StatusFor, Reconcile, NewOp;
    SeenRows(rows, env, seen, after, (tenant, rows[i].tr));
  }

  lemma SeenRows(rows: seq<Op>, env: Env, seen: set<Pair>, after: seq<Op>, pair: Pair)
    requires Progress(rows, env, seen, after) && !HasPair(rows, pair)
    ensures forall j | 0 <= j < |rows| :: after[j] == RowAfter(rows, env, seen + {pair}, j)
  {
    hide StatusFor, Reconcile;
    forall j | 0 <= j < |rows| ensures after[j] == RowAfter(rows, env, seen + {pair}, j) {
      assert after[j] == RowAfter(rows, env, seen, j);
      assert PairOf(rows[j]) != pair;
    }
  }

  /** The new row of a pair is determined by the table and the answers. */
  lemma OneNewPerPair(rows: seq<Op>, env: Env, x: Op, y: Op)
    requires IsNew(rows, env, x) && IsNew(rows, env, y) && PairOf(x) == PairOf(y)
    ensures x == y
  {
    hide StatusFor, Reconcile, NewOp;
    var i :| 0 <= i < |rows| && FirstOfTr(rows, i) && rows[i].tr == x.tr
             && x == Reconcile(NewOp(rows[i], x.tenant), StatusFor(env, x.tr, x.tenant).value);
    var j :| 0 <= j < |rows| && FirstOfTr(rows, j) && rows[j].tr == y.tr
             && y == Reconcile(NewOp(rows[j], y.tenant), StatusFor(env, y.tr, y.tenant).value);
    assert i == j;
  }

  // ----- What the import sync means for the rows -----

  /** A node that the delivery rule names, and that this tenant is the first to sit at, has this status for the transport
      request. */
  ghost predicate Reports(env: Env, tr: string, tenant: nat, status: string) {
    exists node, t :: ReportsAs(env, tr, tenant, status, node, t)
  }

  ghost predicate ReportsAs(env: Env, tr: string, tenant: nat, status: string, node: nat, t: nat) {
    && tr in env.statuses && node in env.statuses[tr] && env.statuses[tr][node] == status && node in env.ruleNodes
    && t < |env.tenants| && env.tenants[t] == Tenant(tenant, node)
    && forall u | 0 <= u < t :: env.tenants[u].node != node
  }

  /** The first row of each pair that TMS reports on follows the report, and every other row stays; each pair that has no
      row and whose report is a known word gains one, which follows the report from the beginning. */
  ghost predicate Told(rows: seq<Op>, env: Env, after: seq<Op>) {
    && |rows| <= |after|
    && (forall i | 0 <= i < |rows| :: TellsRow(rows, env, i, after[i]))
    && (forall k | |rows| <= k < |after| :: Gained(rows, env, after[k]))
    && (forall i: nat, tenant: nat, status | Gains(rows, env, i, tenant, status) :: HasPair(after[|rows|..], (tenant, rows[i].tr)))
    && (forall j, k | |rows| <= j < k < |after| :: PairOf(after[j]) != PairOf(after[k]))
  }

  ghost predicate TellsRow(rows: seq<Op>, env: Env, i: nat, now: Op)
    requires i < |rows|
  {
    && (forall status | FirstOfPair(rows, i) && Reports(env, rows[i].tr, rows[i].tenant, status) :: Looked(rows[i], status, now))
    && ((FirstOfPair(rows, i) ==> forall status :: !Reports(env, rows[i].tr, rows[i].tenant, status)) ==> now == rows[i])
  }

  /** The tenant has no row for the transport request of row i, and its report is one of the known words. */
  ghost predicate Gains(rows: seq<Op>, env: Env, i: nat, tenant: nat, status: string) {
    && i < |rows|
    && (forall j | 0 <= j < |rows| :: rows[j].tenant != tenant || rows[j].tr != rows[i].tr)
    && Reports(env, rows[i].tr, tenant, status)
    && (SaysDone(status) || SaysFailed(status) || SaysRunning(status) || SaysQueued(status))
  }

  /** x is the first row of its transport request, moved to the tenant, put back to the start and told the report. */
  ghost predicate GainedFrom(rows: seq<Op>, env: Env, i: nat, status: string, x: Op) {
    && i < |rows| && FirstOfTr(rows, i) && Gains(rows, env, i, x.tenant, status)
    && Looked(rows[i].(tenant := x.tenant, importState := ImportNotStarted,
                       deployState := if rows[i].skipDeploy then DeployDisabled else DeployNotStarted), status, x)
  }

  ghost predicate Gained(rows: seq<Op>, env: Env, x: Op) {
    exists i: nat, status: string :: GainedFrom(rows, env, i, status, x)
  }

  lemma {:induction false} TenantByNodeIff(tenants: seq<Tenant>, node: nat, tenant: nat)
    requires node != 0
    ensures TenantByNode(tenants, node) == Some(tenant)
            <==> exists t :: 0 <= t < |tenants| && tenants[t] == Tenant(tenant, node) && forall u | 0 <= u < t :: tenants[u].node != node
    decreases |tenants|
  {
    if tenants != [] && tenants[0].node != node {
      var rest := tenants[1..];
      TenantByNodeIff(rest, node, tenant);
      if t :| 0 <= t < |rest| && rest[t] == Tenant(tenant, node) && forall u | 0 <= u < t :: rest[u].node != node {
        assert tenants[t + 1] == Tenant(tenant, node);
        assert forall u | 0 <= u < t + 1 :: tenants[u].node != node by {
          forall u | 0 <= u < t + 1 ensures tenants[u].node != node { if u > 0 { assert tenants[u] == rest[u - 1]; } }
        }
      }
      if t :| 0 <= t < |tenants| && tenants[t] == Tenant(tenant, node) && forall u | 0 <= u < t :: tenants[u].node != node {
        assert rest[t - 1] == Tenant(tenant, node);
        assert forall u | 0 <= u < t - 1 :: rest[u] == tenants[u + 1];
      }
    } else if tenants != [] {
      assert tenants[0] == Tenant(tenants[0].id, node);
    }
  }

  lemma StatusForIff(env: Env, tr: string, tenant: nat, status: string)
    requires Proper(env)
    ensures StatusFor(env, tr, tenant) == Some(status) <==> Reports(env, tr, tenant, status)
  {
    if StatusFor(env, tr, tenant) == Some(status) {
      var node :| Concerns(env, tr, node, tenant) && env.statuses[tr][node] == status;
      TenantByNodeIff(env.tenants, node, tenant);
      var t :| 0 <= t < |env.tenants| && env.tenants[t] == Tenant(tenant, node) && forall u | 0 <= u < t :: env.tenants[u].node != node;
      assert ReportsAs(env, tr, tenant, status, node, t);
    }
    if Reports(env, tr, tenant, status) {
      var node, t :| ReportsAs(env, tr, tenant, status, node, t);
      TenantByNodeIff(env.tenants, node, tenant);
      StatusIs(env, tr, node, tenant);
    }
  }

  lemma NoStatus(env: Env, tr: string, tenant: nat)
    requires Proper(env)
    ensures StatusFor(env, tr, tenant).None? <==> forall status :: !Reports(env, tr, tenant, status)
  {
    hide StatusFor, Reports;
    if StatusFor(env, tr, tenant).Some? {
      StatusForIff(env, tr, tenant, StatusFor(env, tr, tenant).value);
    } else {
      forall status ensures !Reports(env, tr, tenant, status) { StatusForIff(env, tr, tenant, status); }
    }
  }

  lemma OldTold(rows: seq<Op>, env: Env, after: seq<Op>, i: nat)
    requires Proper(env) && Imported(rows, env, after) && i < |rows|
    ensures i < |after| && TellsRow(rows, env, i, after[i])
  {
    var seen :| Progress(rows, env, seen, after) && Complete(rows, env, seen);
    assert after[i] == RowAfter(rows, env, seen, i);
    hide StatusFor, Reconcile, Reports, Looked, Progress, Proper;
    NoStatus(env, rows[i].tr, rows[i].tenant);
    forall status | Reports(env, rows[i].tr, rows[i].tenant, status) && FirstOfPair(rows, i) ensures Looked(rows[i], status, after[i]) {
      StatusForIff(env, rows[i].tr, rows[i].tenant, status);
      ReconcileLooks(rows[i], status);
    }
  }

  lemma NewTold(rows: seq<Op>, env: Env, x: Op)
    requires Proper(env) && IsNew(rows, env, x)
    ensures Gained(rows, env, x)
  {
    hide StatusFor, Reconcile, Reports, Looked, Proper;
    var i :| 0 <= i < |rows| && FirstOfTr(rows, i) && rows[i].tr == x.tr
             && x == Reconcile(NewOp(rows[i], x.tenant), StatusFor(env, x.tr, x.tenant).value);
    var status := StatusFor(env, x.tr, x.tenant).value;
    StatusForIff(env, x.tr, x.tenant, status);
    ReconcileLooks(NewOp(rows[i], x.tenant), status);
    KnownWord(NewOp(rows[i], x.tenant), status);
    forall j | 0 <= j < |rows| ensures rows[j].tenant != x.tenant || rows[j].tr != rows[i].tr { assert PairOf(rows[j]) != PairOf(x); }
    assert GainedFrom(rows, env, i, status, x);
  }

  /** A row at the start moves on exactly when told a known word. */
  lemma KnownWord(op: Op, status: string)
    requires op.importState == ImportNotStarted
    ensures Reconcile(op, status).importState != ImportNotStarted
            <==> SaysDone(status) || SaysFailed(status) || SaysRunning(status) || SaysQueued(status)
  {
    ReconcileLooks(op, status);
    DeriveImportIff(status);
    hide DeriveImport, SaysDone, SaysFailed, SaysRunning, SaysQueued;
  }

  lemma {:induction false} FirstWithTr(rows: seq<Op>, i: nat) returns (j: nat)
    requires i < |rows|
    ensures j <= i && FirstOfTr(rows, j) && rows[j].tr == rows[i].tr
  {
    if k :| 0 <= k < i && rows[k].tr == rows[i].tr {
      j := FirstWithTr(rows, k);
    } else {
      j := i;
    }
  }

  lemma GainTold(rows: seq<Op>, env: Env, after: seq<Op>, i: nat, tenant: nat, status: string)
    requires Proper(env) && Imported(rows, env, after) && i < |rows| && Gains(rows, env, i, tenant, status)
    ensures |rows| <= |after| && HasPair(after[|rows|..], (tenant, rows[i].tr))
  {
    var seen :| Progress(rows, env, seen, after) && Complete(rows, env, seen);
    StatusForIff(env, rows[i].tr, tenant, status);
    hide StatusFor, Reports, SaysDone, SaysFailed, SaysRunning, SaysQueued, Proper;
    var j := FirstWithTr(rows, i);
    var x := Reconcile(NewOp(rows[j], tenant), status);
    KnownWord(NewOp(rows[j], tenant), status);
    hide Reconcile;
    assert x.tr == rows[i].tr && x.tenant == tenant by {
      ReconcileLooks(NewOp(rows[j], tenant), status);
      LookedSubject(NewOp(rows[j], tenant), status, x);
    }
    assert IsNew(rows, env, x);
    assert PairOf(x) in seen;
    assert x in after[|rows|..];
    assert PairOf(x) == (tenant, rows[i].tr);
  }

  lemma LookedSubject(was: Op, status: string, now: Op)
    requires Looked(was, status, now)
    ensures now.tr == was.tr && now.tenant == was.tenant
  {
    hide SaysDone, SaysFailed, SaysRunning, SaysQueued;
  }

  lemma ImportedIsTold(rows: seq<Op>, env: Env, after: seq<Op>)
    requires Proper(env) && Imported(rows, env, after)
    ensures Told(rows, env, after)
  {
    var seen :| Progress(rows, env, seen, after) && Complete(rows, env, seen);
    hide Reports, Looked, IsNew, Gains, Proper, Gained, RowAfter, Complete, TellsRow, HasPair;
    forall k | |rows| <= k < |after| ensures Gained(rows, env, after[k]) { NewTold(rows, env, after[k]); }
    assert forall j, k | |rows| <= j < k < |after| :: PairOf(after[j]) != PairOf(after[k]);
    hide Progress;
    forall i | 0 <= i < |rows| ensures TellsRow(rows, env, i, after[i]) { OldTold(rows, env, after, i); }
    forall i: nat, tenant: nat, status | Gains(rows, env, i, tenant, status) ensures HasPair(after[|rows|..], (tenant, rows[i].tr)) {
      GainsFromRow(rows, env, i, tenant, status);
      GainTold(rows, env, after, i, tenant, status);
    }
  }

  lemma GainsFromRow(rows: seq<Op>, env: Env, i: nat, tenant: nat, status: string)
    requires Gains(rows, env, i, tenant, status)
    ensures i < |rows|
  {
  }

  // ----- The call itself -----

  function Imports(ops: seq<Op>, sourceTenant: nat): seq<ImportState> {
    if ops == [] then []
    else (if ops[0].tenant == sourceTenant then [] else [ops[0].importState]) + Imports(ops[1..], sourceTenant)
  }

  function Deploys(ops: seq<Op>, sourceTenant: nat): seq<DeployState> {
    if ops == [] then []
    else (if ops[0].tenant == sourceTenant then [] else [ops[0].deployState]) + Deploys(ops[1..], sourceTenant)
  }

  /** The status derived from every row but the source tenant's. */
  function Rollup(dr: Dr, ops: seq<Op>): AggregateStatus {
    DeriveAggregateStatus(dr.status, Imports(ops, dr.sourceTenant), Deploys(ops, dr.sourceTenant))
  }

  // ----- What the rolled-up status says -----

  ghost predicate SomeImport(dr: Dr, ops: seq<Op>, states: set<ImportState>) {
    exists i :: 0 <= i < |ops| && ops[i].tenant != dr.sourceTenant && ops[i].importState in states
  }

  ghost predicate SomeDeploy(dr: Dr, ops: seq<Op>, states: set<DeployState>) {
    exists i :: 0 <= i < |ops| && ops[i].tenant != dr.sourceTenant && ops[i].deployState in states
  }

  ghost predicate SomeTarget(dr: Dr, ops: seq<Op>) {
    exists i :: 0 <= i < |ops| && ops[i].tenant != dr.sourceTenant
  }

  /** Some import has neither succeeded nor been disabled. */
  ghost predicate ImportsOpen(dr: Dr, ops: seq<Op>) {
    SomeImport(dr, ops, OPEN_IMPORTS)
  }

  /** Some import has not begun, and none is waiting, under way or failed. */
  ghost predicate Undecided(dr: Dr, ops: seq<Op>) {
    && SomeImport(dr, ops, {ImportNotStarted}) && !SomeImport(dr, ops, {ImportQueued})
    && !SomeImport(dr, ops, {ImportInProgress}) && !SomeImport(dr, ops, {ImportFailed})
  }

  /** Which status stands for which rows outside the source tenant. A canceled request stays canceled, and one without
      such rows keeps its status, if it has any. */
  ghost predicate StatusSays(dr: Dr, ops: seq<Op>, status: AggregateStatus) {
    && (status == AggCanceled <==> dr.status == AggCanceled)
    && (dr.status != AggCanceled && !SomeTarget(dr, ops) ==> status == if dr.status == AggUnset then AggUnknown else dr.status)
    && (dr.status != AggCanceled && SomeTarget(dr, ops) ==> ImportsSay(dr, ops, status) && DeploysSay(dr, ops, status))
  }

  ghost predicate ImportsSay(dr: Dr, ops: seq<Op>, status: AggregateStatus) {
    && (status == AggImportFailed <==> SomeImport(dr, ops, {ImportFailed}))
    && (status == AggImporting <==> SomeImport(dr, ops, {ImportInProgress}) && !SomeImport(dr, ops, {ImportFailed}))
    && (status == AggAwaitingImport <==>
          || (SomeImport(dr, ops, {ImportQueued}) && !SomeImport(dr, ops, {ImportInProgress}) && !SomeImport(dr, ops, {ImportFailed}))
          || (Undecided(dr, ops) && dr.status == AggAwaitingImport))
    && (status == AggPending <==> Undecided(dr, ops) && dr.status == AggPending)
    && (status == AggWaitingApprove <==> Undecided(dr, ops) && dr.status == AggWaitingApprove)
    && (status == AggInProgress <==> Undecided(dr, ops) && dr.status !in {AggPending, AggWaitingApprove, AggAwaitingImport})
    && status !in {AggUnset, AggUnknown, AggFailed, AggCanceled}
  }

  /** Deployments speak only once no import is open. */
  ghost predicate DeploysSay(dr: Dr, ops: seq<Op>, status: AggregateStatus) {
    && (status == AggDeployFailed <==> !ImportsOpen(dr, ops) && SomeDeploy(dr, ops, {DeployFailed}))
    && (status == AggDeploying <==>
          !ImportsOpen(dr, ops) && SomeDeploy(dr, ops, {DeployInProgress}) && !SomeDeploy(dr, ops, {DeployFailed}))
    && (status == AggWaitingDeploy <==>
          && !ImportsOpen(dr, ops) && SomeDeploy(dr, ops, OPEN_DEPLOYS)
          && !SomeDeploy(dr, ops, {DeployInProgress}) && !SomeDeploy(dr, ops, {DeployFailed}))
    && (status == AggDeployed <==> !ImportsOpen(dr, ops) && !SomeDeploy(dr, ops, OPEN_DEPLOYS))
  }

  lemma {:induction false} ImportsAre(ops: seq<Op>, source: nat, state: ImportState)
    ensures state in Imports(ops, source) <==> exists i :: 0 <= i < |ops| && ops[i].tenant != source && ops[i].importState == state
  {
    if ops != [] {
      ImportsAre(ops[1..], source, state);
      if i :| 0 <= i < |ops| && ops[i].tenant != source && ops[i].importState == state {
        assert i > 0 ==> ops[1..][i - 1] == ops[i];
      }
      if i :| 0 <= i < |ops[1..]| && ops[1..][i].tenant != source && ops[1..][i].importState == state {
        assert ops[i + 1] == ops[1..][i];
      }
    }
  }

  lemma {:induction false} DeploysAre(ops: seq<Op>, source: nat, state: DeployState)
    ensures state in Deploys(ops, source) <==> exists i :: 0 <= i < |ops| && ops[i].tenant != source && ops[i].deployState == state
  {
    if ops != [] {
      DeploysAre(ops[1..], source, state);
      if i :| 0 <= i < |ops| && ops[i].tenant != source && ops[i].deployState == state {
        assert i > 0 ==> ops[1..][i - 1] == ops[i];
      }
      if i :| 0 <= i < |ops[1..]| && ops[1..][i].tenant != source && ops[1..][i].deployState == state {
        assert ops[i + 1] == ops[1..][i];
      }
    }
  }

  lemma SomeImportIff(dr: Dr, ops: seq<Op>, states: set<ImportState>)
    ensures SomeImport(dr, ops, states) <==> Any(Imports(ops, dr.sourceTenant), states)
  {
    forall state ensures state in Imports(ops, dr.sourceTenant) <==>
                           exists i :: 0 <= i < |ops| && ops[i].tenant != dr.sourceTenant && ops[i].importState == state {
      ImportsAre(ops, dr.sourceTenant, state);
    }
  }

  lemma SomeDeployIff(dr: Dr, ops: seq<Op>, states: set<DeployState>)
    ensures SomeDeploy(dr, ops, states) <==> Any(Deploys(ops, dr.sourceTenant), states)
  {
    forall state ensures state in Deploys(ops, dr.sourceTenant) <==>
                           exists i :: 0 <= i < |ops| && ops[i].tenant != dr.sourceTenant && ops[i].deployState == state {
      DeploysAre(ops, dr.sourceTenant, state);
    }
  }

  lemma {:induction false} SomeTargetIff(dr: Dr, ops: seq<Op>)
    ensures SomeTarget(dr, ops) <==> Imports(ops, dr.sourceTenant) != []
    ensures SomeTarget(dr, ops) <==> Deploys(ops, dr.sourceTenant) != []
  {
    if ops != [] {
      SomeTargetIff(dr, ops[1..]);
      if i :| 0 <= i < |ops| && ops[i].tenant != dr.sourceTenant {
        assert i > 0 ==> ops[1..][i - 1] == ops[i];
      }
      if i :| 0 <= i < |ops[1..]| && ops[1..][i].tenant != dr.sourceTenant {
        assert ops[i + 1] == ops[1..][i];
      }
    }
  }

  lemma RollupSays(dr: Dr, ops: seq<Op>)
    ensures StatusSays(dr, ops, Rollup(dr, ops))
  {
    var imports, deploys := Imports(ops, dr.sourceTenant), Deploys(ops, dr.sourceTenant);
    SomeTargetIff(dr, ops);
    if imports != [] && dr.status != AggCanceled {
      ImportStatusIff(dr.status, imports, deploys);
      DeployStatusIff(dr.status, imports, deploys);
      SomeImportIff(dr, ops, {ImportNotStarted});
      SomeImportIff(dr, ops, {ImportQueued});
      SomeImportIff(dr, ops, {ImportInProgress});
      SomeImportIff(dr, ops, {ImportFailed});
      SomeImportIff(dr, ops, OPEN_IMPORTS);
      SomeDeployIff(dr, ops, {DeployInProgress});
      SomeDeployIff(dr, ops, {DeployFailed});
      SomeDeployIff(dr, ops, OPEN_DEPLOYS);
      hide DeriveAggregateStatus;
    }
    hide SomeImport, SomeDeploy, SomeTarget, Imports, Deploys, Any, All;
  }

  function Answer(env: Env, op: Op): Option<Runtime> {
    if (op.tenant, op.techId) in env.runtime then Some(env.runtime[(op.tenant, op.techId)]) else None
  }

  function Settled(ops: seq<Op>, env: Env): (r: seq<Op>)
    ensures |r| == |ops|
    ensures forall i | 0 <= i < |ops| :: r[i] == Settle(ops[i], Answer(env, ops[i]))
  {
    seq(|ops|, i requires 0 <= i < |ops| => Settle(ops[i], Answer(env, ops[i])))
  }

  /** Every row is as the runtimes' answers leave it. */
  ghost predicate Heard(ops: seq<Op>, env: Env, after: seq<Op>) {
    |after| == |ops| && forall i | 0 <= i < |ops| :: HeardOf(ops[i], Answer(env, ops[i]), after[i])
  }

  lemma SettledIsHeard(ops: seq<Op>, env: Env)
    ensures Heard(ops, env, Settled(ops, env))
  {
    hide Settle, HeardOf;
    forall i | 0 <= i < |ops| ensures HeardOf(ops[i], Answer(env, ops[i]), Settled(ops, env)[i]) {
      SettleHears(ops[i], Answer(env, ops[i]));
    }
  }

  predicate MaySync(dr: Dr) {
    dr.approvedAt && dr.approvedBy != "" && dr.status != AggCanceled
  }

  /** What a sync may leave behind: import and deploy states looked up when the request is approved and
      alive, and in any case the rolled-up status. */
  ghost predicate Synced(dr: Dr, ops: seq<Op>, env: Env, dr': Dr, ops': seq<Op>) {
    && (!MaySync(dr) ==> ops' == ops)
    && (MaySync(dr) ==> exists imported :: Imported(ops, env, imported) && ops' == Settled(imported, env))
    && dr' == dr.(status := Rollup(dr, ops'))
  }

  class DeliveryRequest {
    var dr: Dr
    var ops: seq<Op>

    constructor (dr: Dr, ops: seq<Op>)
      ensures this.dr == dr && this.ops == ops
    {
      this.dr := dr;
      this.ops := ops;
    }

    /** Looks at every node of one transport request, in whatever order the map hands them out. */
    method ImportTr(rows: seq<Op>, env: Env, tenantToOps: map<Pair, nat>, i: nat, ghost seen: set<Pair>) returns (ghost seen': set<Pair>)
      requires Proper(env) && IndexOf(rows, tenantToOps)
      requires i < |rows| && FirstOfTr(rows, i) && rows[i].tr in env.statuses
      requires Progress(rows, env, seen, ops)
      requires forall pair | pair in seen :: pair.1 != rows[i].tr
      modifies this`ops
      ensures Progress(rows, env, seen', ops)
      ensures seen <= seen' && forall pair | pair in seen' :: pair in seen || pair.1 == rows[i].tr
      ensures Covered(rows, env, {rows[i].tr}, seen')
    {
      var tr := rows[i].tr;
      var todo := env.statuses[tr].Keys;
      seen' := seen;
      while todo != {}
        invariant todo <= env.statuses[tr].Keys
        invariant Progress(rows, env, seen', ops)
        invariant seen <= seen' && forall pair | pair in seen' :: pair in seen || pair.1 == tr
        invariant Visited(env, tr, seen', todo)
        decreases todo
      {
        var node :| node in todo;
        ghost var before := todo;
        todo := todo - {node};
        if node !in env.ruleNodes { continue; }
        var found := TenantByNode(env.tenants, node);
        if found.None? { continue; }
        var pair := (found.value, tr);
        VisitedOnce(env, tr, seen', before, node, found.value);
        LookAt(rows, env, tenantToOps, i, node, found.value, seen');
        seen' := seen' + {pair};
      }
    }

    /** One node of one transport request: finds or makes the row, derives its state, saves it when it changed. */
    method LookAt(rows: seq<Op>, env: Env, tenantToOps: map<Pair, nat>, i: nat, node: nat, tenant: nat, ghost seen: set<Pair>)
      requires Proper(env) && IndexOf(rows, tenantToOps)
      requires i < |rows| && FirstOfTr(rows, i) && Concerns(env, rows[i].tr, node, tenant)
      requires Progress(rows, env, seen, ops) && (tenant, rows[i].tr) !in seen
      modifies this`ops
      ensures Progress(rows, env, seen + {(tenant, rows[i].tr)}, ops)
    {
      var pair := (tenant, rows[i].tr);
      var status := env.statuses[rows[i].tr][node];
      StatusIs(env, rows[i].tr, node, tenant);
      hide StatusFor, Reconcile, NewOp, Progress, Concerns, FirstOfTr, HasPair;
      if pair in tenantToOps {
        var k := tenantToOps[pair];
        var current := rows[k];
        var next := Reconcile(current, status);
        SeenOld(rows, env, seen, ops, k, status);
        if next != current { ops := ops[k := next]; }
      } else {
        var next := Reconcile(NewOp(rows[i], tenant), status);
        if next.importState == ImportNotStarted {
          SeenNothing(rows, env, seen, ops, i, tenant, status);
        } else {
          SeenNew(rows, env, seen, ops, i, tenant, status);
          ops := ops + [next];
        }
      }
    }

    method SyncImportState(env: Env)
      requires Proper(env)
      modifies this`ops
      ensures Imported(old(ops), env, ops)
      ensures Told(old(ops), env, ops)
    {
      var rows := ops;
      var tenantToOps := Index(rows);
      var trUpdated: set<string> := {};
      ghost var seen: set<Pair> := {};
      NothingSeen(rows, env);
      hide StatusFor, Progress, Covered, Complete, Imported, Told;
      for i := 0 to |rows|
        invariant Progress(rows, env, seen, ops)
        invariant forall j | 0 <= j < i :: rows[j].tr in trUpdated
        invariant forall tr | tr in trUpdated :: exists j :: 0 <= j < i && rows[j].tr == tr
        invariant forall pair | pair in seen :: pair.1 in trUpdated
        invariant Covered(rows, env, trUpdated, seen)
      {
        var tr := rows[i].tr;
        if tr in trUpdated { continue; }
        ghost var before := seen;
        if tr in env.statuses {
          seen := ImportTr(rows, env, tenantToOps, i, seen);
        }
        CoverOne(rows, env, trUpdated, before, tr, seen);
        trUpdated := trUpdated + {tr};
      }
      AllCovered(rows, env, trUpdated, seen, ops);
      ImportedIsTold(rows, env, ops);
    }

    method SyncDeployState(env: Env)
      modifies this`ops
      ensures ops == Settled(old(ops), env)
      ensures Heard(old(ops), env, ops)
    {
      SettledIsHeard(ops, env);
      hide CpiVersion.Compare, HeardOf;
      var rows := ops;
      for i := 0 to |rows|
        invariant |ops| == |rows|
        invariant forall j | 0 <= j < i :: ops[j] == Settle(rows[j], Answer(env, rows[j]))
        invariant forall j | i <= j < |rows| :: ops[j] == rows[j]
      {
        var op := rows[i];
        if op.deployState != DeployInProgress { continue; }
        var answer := Answer(env, op);
        if answer.None? { continue; }          // may not be deployed yet
        var rt := answer.value;
        var state := DeployInProgress;
        if rt.version == op.version {
          if rt.status == "STARTED" {
            state := DeployComplete;
          } else if rt.status == "ERROR" {
            state := DeployFailed;
          }
        } else if CpiVersion.Compare(rt.version, op.version) > 0 {
          state := DeployFailed;               // superseded by a higher version
        }
        if state != op.deployState { ops := ops[i := ops[i].(deployState := state)]; }
      }
    }

    method DetermineOverallStatus()
      modifies this`dr
      ensures dr == old(dr).(status := Rollup(old(dr), ops))
      ensures StatusSays(old(dr), ops, dr.status)
    {
      RollupSays(dr, ops);
      hide StatusSays, DeriveAggregateStatus;
      var imports, deploys := [], [];
      var i := |ops|;
      while i > 0
        invariant 0 <= i <= |ops|
        invariant imports == Imports(ops[i..], dr.sourceTenant)
        invariant deploys == Deploys(ops[i..], dr.sourceTenant)
      {
        i := i - 1;
        assert ops[i..][1..] == ops[i + 1..];
        if ops[i].tenant != dr.sourceTenant {
          imports, deploys := [ops[i].importState] + imports, [ops[i].deployState] + deploys;
        }
      }
      assert ops[0..] == ops;
      var status := DeriveAggregateStatus(dr.status, imports, deploys);
      if status != dr.status { dr := dr.(status := status); }
    }

    /** The deferred roll-up runs on the error exits too; subscribers hear of it only when something changed. */
    method SyncDeliveryStatus(env: Env) returns (ok: bool, notified: bool)
      requires Proper(env)
      modifies this
      ensures ok == MaySync(old(dr))
      ensures Synced(old(dr), old(ops), env, dr, ops)
      ensures !ok ==> ops == old(ops)
      ensures ok ==> exists told :: Told(old(ops), env, told) && Heard(told, env, ops)
      ensures StatusSays(old(dr), ops, dr.status)
      ensures notified == (dr.status != old(dr).status || Phases(ops) != Phases(old(ops)))
    {
      hide Told, Heard, StatusSays, Rollup, Imported, Settled;
      var before := (dr.status, Phases(ops));
      ok := MaySync(dr);
      if ok {
        SyncImportState(env);
        SyncDeployState(env);
      }
      DetermineOverallStatus();
      notified := before != (dr.status, Phases(ops));
    }
  }

  /** The change key of a delivery request: both phases of every row, in id order. */
  function Phases(ops: seq<Op>): seq<(ImportState, DeployState)> {
    seq(|ops|, i requires 0 <= i < |ops| => (ops[i].importState, ops[i].deployState))
  }

  /** The first row of every pair. */
  ghost predicate IndexOf(rows: seq<Op>, index: map<Pair, nat>) {
    && (forall pair | pair in index :: index[pair] < |rows| && PairOf(rows[index[pair]]) == pair && FirstOfPair(rows, index[pair]))
    && (forall i | 0 <= i < |rows| :: PairOf(rows[i]) in index)
  }

  method Index(rows: seq<Op>) returns (index: map<Pair, nat>)
    ensures IndexOf(rows, index)
  {
    index := map[];
    for i := 0 to |rows|
      invariant forall pair | pair in index :: index[pair] < i && PairOf(rows[index[pair]]) == pair && FirstOfPair(rows, index[pair])
      invariant forall j | 0 <= j < i :: PairOf(rows[j]) in index
    {
      if PairOf(rows[i]) !in index {
        index := index[PairOf(rows[i]) := i];
      }
    }
  }

  /** The nodes of tr no longer to do are exactly those whose tenant has been seen. */
  ghost predicate Visited(env: Env, tr: string, seen: set<Pair>, todo: set<nat>) {
    forall tenant: nat, node | Concerns(env, tr, node, tenant) :: (tenant, tr) in seen <==> node !in todo
  }

  lemma VisitedOnce(env: Env, tr: string, seen: set<Pair>, todo: set<nat>, node: nat, tenant: nat)
    requires Proper(env) && Visited(env, tr, seen, todo) && node in todo && Concerns(env, tr, node, tenant)
    ensures (tenant, tr) !in seen
    ensures Visited(env, tr, seen + {(tenant, tr)}, todo - {node})
  {
    forall other: nat, m | Concerns(env, tr, m, other) ensures (other, tr) in seen + {(tenant, tr)} <==> m !in todo - {node} {
      if other == tenant { OneNodeOnly(env, tr, m, node, tenant); }
    }
  }

  /** All the pairs of the transport requests dealt with have been looked at. */
  ghost predicate Covered(rows: seq<Op>, env: Env, trs: set<string>, seen: set<Pair>) {
    forall tr, tenant: nat | tr in trs && StatusFor(env, tr, tenant).Some? :: (tenant, tr) in seen
  }

  lemma NothingSeen(rows: seq<Op>, env: Env)
    ensures Progress(rows, env, {}, rows) && Covered(rows, env, {}, {})
  {
  }

  lemma CoverOne(rows: seq<Op>, env: Env, trs: set<string>, seen: set<Pair>, tr: string, wider: set<Pair>)
    requires Covered(rows, env, trs, seen) && seen <= wider
    requires tr in env.statuses ==> Covered(rows, env, {tr}, wider)
    ensures Covered(rows, env, trs + {tr}, wider)
  {
    forall other, tenant: nat | other in trs + {tr} && StatusFor(env, other, tenant).Some? ensures (tenant, other) in wider {
      if other in trs { assert (tenant, other) in seen; }
    }
  }

  lemma AllCovered(rows: seq<Op>, env: Env, trs: set<string>, seen: set<Pair>, after: seq<Op>)
    requires Progress(rows, env, seen, after) && Covered(rows, env, trs, seen)
    requires forall j | 0 <= j < |rows| :: rows[j].tr in trs
    ensures Imported(rows, env, after)
  {
    assert Complete(rows, env, seen);
  }
}
