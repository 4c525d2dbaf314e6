/** What the check before a batch protects a canceled request from. */
module Protection {
  import opened Lifecycle
  import opened Operations
  import opened Sync
  import opened Pipeline
  import opened Cancel

  predicate IsBatch(call: Call) { call.Admitted? || call.Writing? || call.Triggered? }

  /** The check of call c passes, against request named. */
  ghost predicate AdmittedAt(states: seq<State>, j: int, c: nat, named: nat) {
    0 <= j < |states| - 1 && StepsTo(states[j], Admit(c, named), states[j + 1])
  }

  /** Call c has been at work from its check in step j until i. */
  ghost predicate SameCall(states: seq<State>, j: int, i: int, c: nat) {
    0 <= j < i < |states| && forall k | j < k <= i :: c in states[k].calls && IsBatch(states[k].calls[c])
  }

  /** Call c writes row id of request dr to the table, with its import or its deployment under way. */
  ghost predicate StartsRow(states: seq<State>, i: int, c: nat, id: nat, dr: nat) {
    && 0 <= i < |states| - 1 && StepsTo(states[i], WriteRow(c, id, false), states[i + 1])
    && id in states[i].rows && states[i].rows[id].op.dr == dr
    && id in states[i + 1].rows
    && (states[i + 1].rows[id].op.importState == ImportInProgress || states[i + 1].rows[id].op.deployState == DeployInProgress)
  }

  lemma BatchKeepsName(s: State, step: Step, t: State, c: nat)
    requires Batches(s, step, t) && c in t.calls && IsBatch(t.calls[c])
    ensures step == Admit(c, t.calls[c].named) || (c in s.calls && IsBatch(s.calls[c]) && s.calls[c].named == t.calls[c].named)
  {
    hide Updates, Started, AllStarted, AllReverted, Startable;
  }

  lemma OthersKeepCalls(s: State, step: Step, t: State, c: nat)
    requires (Edits(s, step, t) || Syncs(s, step, t) || Statuses(s, step, t)) && c in t.calls && IsBatch(t.calls[c])
    ensures c in s.calls && s.calls[c] == t.calls[c]
  {
    hide Reconcile, Settle, NewOp, Rollup, RowsOf;
  }

  lemma NameStays(s: State, step: Step, t: State, c: nat)
    requires StepsTo(s, step, t) && c in t.calls && IsBatch(t.calls[c])
    ensures step == Admit(c, t.calls[c].named) || (c in s.calls && IsBatch(s.calls[c]) && s.calls[c].named == t.calls[c].named)
  {
    hide Edits, Batches, Syncs, Statuses;
    if Batches(s, step, t) { BatchKeepsName(s, step, t, c); } else { OthersKeepCalls(s, step, t, c); }
  }

  lemma {:induction false} CheckedEarlier(states: seq<State>, i: nat, c: nat) returns (j: nat)
    requires Run(states) && i < |states| && c in states[i].calls && IsBatch(states[i].calls[c])
    ensures AdmittedAt(states, j, c, states[i].calls[c].named) && SameCall(states, j, i, c)
  {
    hide StepsTo;
    assert Next(states[i - 1], states[i - 1 + 1]);
    var step :| StepsTo(states[i - 1], step, states[i]);
    NameStays(states[i - 1], step, states[i], c);
    if c in states[i - 1].calls && IsBatch(states[i - 1].calls[c]) && states[i - 1].calls[c].named == states[i].calls[c].named {
      j := CheckedEarlier(states, i - 1, c);
    } else {
      j := i - 1;
    }
  }

  /** In every run, whatever starts a row of a canceled request is a call that was checked against another request, or
      checked before the cancellation. */
  lemma StartedWhileCanceled(states: seq<State>, i: nat, c: nat, id: nat, dr: nat) returns (j: nat, named: nat)
    requires Run(states) && StartsRow(states, i, c, id, dr) && Canceled(states[i], dr)
    ensures AdmittedAt(states, j, c, named) && SameCall(states, j, i, c)
    ensures named != dr || !Canceled(states[j], dr)
  {
    assert c in states[i].calls && states[i].calls[c].Writing? by { WritesInBatch(states[i], c, id, states[i + 1]); }
    named := states[i].calls[c].named;
    j := CheckedEarlier(states, i, c);
    AdmitNeedsLife(states[j], c, named, states[j + 1]);
  }

  lemma WritesInBatch(s: State, c: nat, id: nat, t: State)
    requires StepsTo(s, WriteRow(c, id, false), t)
    ensures c in s.calls && s.calls[c].Writing?
  {
  }

  lemma AdmitNeedsLife(s: State, c: nat, named: nat, t: State)
    requires StepsTo(s, Admit(c, named), t)
    ensures !Canceled(s, named)
  {
  }

  // ----- Both kinds of call do start canceled rows -----

  const APPROVED := Dr(AggAwaitingImport, true, "bob", 9)

  function Fresh(dr: nat): Row {
    Row(Op(dr, "flow", "1.0.0", 2, "7", false, ImportNotStarted, DeployNotStarted), RequestPending)
  }

  function Queued(dr: nat): Row {
    Fresh(dr).(op := Fresh(dr).op.(importState := ImportQueued))
  }

  function Filled(s: State, dr: nat, id: nat): State {
    Put(s.(drs := s.drs[dr := Dr(AggPending, false, "", 9)]), id, Fresh(dr))
  }

  lemma Fill(states: seq<State>, dr: nat, id: nat) returns (longer: seq<State>)
    requires Run(states) && dr !in Last(states).drs && id !in Last(states).used
    ensures Run(longer) && Last(longer) == Filled(Last(states), dr, id)
  {
    var s0 := Last(states);
    var s1 := s0.(drs := s0.drs[dr := Dr(AggPending, false, "", 9)]);
    hide Run, StepsTo, Put;
    ExtendEdits(states, CreateRequest(dr, 9), s1);
    ExtendEdits(states + [s1], Insert(id, Fresh(dr)), Put(s1, id, Fresh(dr)));
    longer := states + [s1] + [Put(s1, id, Fresh(dr))];
  }

  lemma ApprovalSteps(s: State, t: State, dr: nat, id: nat)
    requires s.calls == map[] && dr in s.drs && s.drs[dr] == Dr(AggPending, false, "", 9)
    requires id in s.rows && s.rows[id].op.dr == dr && t == s.(drs := s.drs[dr := APPROVED])
    ensures Statuses(s, BeginApprove(0, dr, "bob"), With(s, 0, Approving(dr, "bob")))
    ensures Statuses(With(s, 0, Approving(dr, "bob")), EndApprove(0), t)
  {
    assert t.calls == With(s, 0, Approving(dr, "bob")).calls - {0};
  }

  /** Somebody creates, fills and approves a request. */
  lemma Approve(states: seq<State>, dr: nat, id: nat) returns (longer: seq<State>)
    requires Run(states) && Last(states).calls == map[] && dr !in Last(states).drs && id !in Last(states).used
    ensures Run(longer) && Last(longer) == Last(states).(drs := Last(states).drs[dr := APPROVED],
                                                         rows := Last(states).rows[id := Fresh(dr)], used := Last(states).used + {id})
  {
    var s0 := Last(states);
    var filled := Fill(states, dr, id);
    var s2 := Last(filled);
    var s3 := With(s2, 0, Approving(dr, "bob"));
    var s4 := s2.(drs := s2.drs[dr := APPROVED]);
    assert s4.drs == s0.drs[dr := APPROVED];
    hide Run, Statuses, With;
    ApprovalSteps(s2, s4, dr, id);
    ExtendStatuses(filled, BeginApprove(0, dr, "bob"), s3);
    ExtendStatuses(filled + [s3], EndApprove(0), s4);
    longer := filled + [s3] + [s4];
  }

  lemma InitialIsQueued()
    ensures DeriveImport("INITIAL") == ImportQueued
  {
    assert Upper("INITIAL") == "INITIAL";
  }

  lemma ReadForSync(states: seq<State>, dr: nat) returns (longer: seq<State>)
    requires Run(states) && Last(states).calls == map[] && dr in Last(states).drs && Last(states).drs[dr] == APPROVED
    ensures Run(longer) && Last(longer) == Last(states).(calls := map[0 := Importing(dr, RowsOf(Last(states).rows, dr))])
  {
    var s0 := Last(states);
    var s1 := With(s0, 0, Syncing(dr));
    var s2 := s0.(calls := map[0 := Importing(dr, RowsOf(s0.rows, dr))]);
    hide Run, StepsTo, RowsOf;
    ExtendSyncs(states, BeginSync(0, dr), s1);
    assert s2 == With(s1, 0, Importing(dr, RowsOf(s1.rows, dr)));
    ExtendSyncs(states + [s1], BeginImport(0), s2);
    longer := states + [s1] + [s2];
  }

  /** A sync finds the row waiting in TMS. */
  lemma SyncNow(states: seq<State>, dr: nat, id: nat) returns (longer: seq<State>)
    requires Run(states) && Last(states).calls == map[] && dr in Last(states).drs && Last(states).drs[dr] == APPROVED
    requires id in Last(states).rows && Last(states).rows[id] == Fresh(dr) && id in Last(states).used
    ensures Run(longer) && Last(longer) == Last(states).(rows := Last(states).rows[id := Queued(dr)])
  {
    var s0 := Last(states);
    var read := ReadForSync(states, dr);
    var s2 := Last(read);
    var s3 := Put(s2, id, Queued(dr));
    var s4 := s0.(rows := s0.rows[id := Queued(dr)]);
    WaitingIsQueued(s2, dr, id);
    assert s3.used == s0.used;
    assert s4.calls == s3.calls - {0};
    assert s4 == Without(s3, 0);
    hide Run, StepsTo, RowsOf, Syncs, Put;
    ExtendSyncs(read, ImportRow(0, id, "INITIAL"), s3);
    ExtendBatches(read + [s3], Return(0), s4);
    longer := read + [s3] + [s4];
  }

  lemma WaitingIsQueued(s: State, dr: nat, id: nat)
    requires 0 in s.calls && s.calls[0].Importing? && id in s.calls[0].copies && s.calls[0].copies[id] == Fresh(dr)
    ensures Syncs(s, ImportRow(0, id, "INITIAL"), Put(s, id, Queued(dr)))
  {
    InitialIsQueued();
    hide DeriveImport;
  }

  lemma CancelNow(states: seq<State>, dr: nat) returns (longer: seq<State>)
    requires Run(states) && dr in Last(states).drs && Last(states).drs[dr] == APPROVED && 1 !in Last(states).calls
    ensures Run(longer) && |longer| == |states| + 2 && longer[..|states|] == states
    ensures longer[|states|] == With(Last(states), 1, SetStatus(dr, AggCanceled))
    ensures Last(longer) == Last(states).(drs := Last(states).drs[dr := APPROVED.(status := AggCanceled)])
  {
    var s0 := Last(states);
    var s1 := With(s0, 1, SetStatus(dr, AggCanceled));
    var s2 := s0.(drs := s0.drs[dr := APPROVED.(status := AggCanceled)]);
    assert s2.calls == s1.calls - {1};
    hide Run, StepsTo;
    ExtendStatuses(states, BeginCancel(1, dr), s1);
    ExtendStatuses(states + [s1], EndSetStatus(1), s2);
    longer := states + [s1] + [s2];
  }

  lemma AdmitNow(states: seq<State>, named: nat) returns (longer: seq<State>)
    requires Run(states) && named in Last(states).drs && Last(states).drs[named] == APPROVED && 0 !in Last(states).calls
    ensures Run(longer) && |longer| == |states| + 1 && longer[..|states|] == states
    ensures Last(longer) == With(Last(states), 0, Admitted(named)) && AdmittedAt(longer, |states| - 1, 0, named)
  {
    var s1 := With(Last(states), 0, Admitted(named));
    ExtendBatches(states, Admit(0, named), s1);
    longer := states + [s1];
    assert StepsTo(Last(states), Admit(0, named), s1) by { assert Batches(Last(states), Admit(0, named), s1); }
  }

  lemma StartNow(states: seq<State>, dr: nat, id: nat) returns (longer: seq<State>)
    requires Run(states) && 0 in Last(states).calls && Last(states).calls[0].Admitted?
    requires id in Last(states).rows && Last(states).rows[id] == Queued(dr)
    ensures Run(longer) && |longer| == |states| + 2 && longer[..|states|] == states
    ensures longer[|states|].drs == Last(states).drs && longer[|states|].calls.Keys == Last(states).calls.Keys
    ensures (forall c | c in Last(states).calls && c != 0 :: longer[|states|].calls[c] == Last(states).calls[c])
    ensures longer[|states|].calls[0].Writing? && StartsRow(longer, |states|, 0, id, dr)
  {
    var s0 := Last(states);
    var s1 := With(s0, 0, Writing(s0.calls[0].named, Import, AllStarted(Import, s0.rows, {id}), {id}));
    var s2 := Put(With(s1, 0, s1.calls[0].(todo := s1.calls[0].todo - {id})), id, Updates(s0.rows[id], Started(Import, s0.rows[id])));
    ExtendBatches(states, BeginBatch(0, Import, {id}), s1);
    assert Batches(s1, WriteRow(0, id, false), s2);
    ExtendBatches(states + [s1], WriteRow(0, id, false), s2);
    longer := states + [s1] + [s2];
    assert StepsTo(s1, WriteRow(0, id, false), s2);
    hide Run, StepsTo;
  }

  /** A run in which a call checked against one request, after the cancellation or before it, starts a row of another or
      the same request that is canceled for good. */
  ghost predicate StartsCanceled(states: seq<State>, j: int, i: int, c: nat, id: nat, dr: nat, named: nat) {
    && Run(states) && AdmittedAt(states, j, c, named) && SameCall(states, j, i, c)
    && StartsRow(states, i, c, id, dr) && Canceled(states[i], dr) && Final(states[i], dr)
  }

  /** Two approved requests, or one, and a row waiting to be imported. */
  lemma Ready(dr: nat, named: nat) returns (states: seq<State>)
    ensures Run(states) && Last(states).calls == map[] && Last(states).drs == map[dr := APPROVED, named := APPROVED]
    ensures 5 in Last(states).rows && Last(states).rows[5] == Queued(dr)
  {
    states := [State(map[], map[], {}, {}, map[])];
    states := Approve(states, dr, 5);
    if named != dr { states := Approve(states, named, 6); }
    states := SyncNow(states, dr, 5);
  }

  lemma LateCallStarts(dr: nat, named: nat) returns (states: seq<State>, j: nat, i: nat)
    requires named != dr
    ensures StartsCanceled(states, j, i, 0, 5, dr, named) && Canceled(states[j], dr)
  {
    hide StepsTo, Final, Stale, Run;
    var ready := Ready(dr, named);
    var canceled := CancelNow(ready, dr);
    var admitted := AdmitNow(canceled, named);
    states := StartNow(admitted, dr, 5);
    j, i := |canceled| - 1, |admitted|;
    assert states[j] == Last(canceled) && states[j + 1] == Last(admitted);
    assert !Stale(states[i], dr) by { NotStale(states[i], dr); }
    CanceledForGoodIff(states[i], dr);
  }

  lemma EarlyCallStarts(dr: nat, named: nat) returns (states: seq<State>, j: nat, i: nat)
    ensures StartsCanceled(states, j, i, 0, 5, dr, named) && !Canceled(states[j], dr)
  {
    hide StepsTo, Final, Stale, Run;
    var ready := Ready(dr, named);
    var admitted := AdmitNow(ready, named);
    var canceled := CancelNow(admitted, dr);
    states := StartNow(canceled, dr, 5);
    j, i := |ready| - 1, |canceled|;
    assert states[j] == Last(ready) && states[j + 1] == Last(admitted) && states[j + 2] == canceled[|admitted|];
    assert states[j + 3] == Last(canceled);
    assert !Canceled(states[j], dr) && Canceled(states[i], dr);
    assert SameCall(states, j, i, 0) by {
      forall k | j < k <= i ensures 0 in states[k].calls && IsBatch(states[k].calls[0]) {
        assert k == j + 1 || k == j + 2 || k == j + 3 || k == j + 4;
      }
    }
    assert !Stale(states[i], dr) by { NotStale(states[i], dr); }
    CanceledForGoodIff(states[i], dr);
  }

  lemma NotStale(s: State, dr: nat)
    requires forall c | c in s.calls :: IsBatch(s.calls[c])
    ensures !Stale(s, dr)
  {
  }

  /** The check before a batch keeps a canceled request's rows from exactly those calls that name the request and are
      checked after the cancellation: for any two requests, a call checked against one does, in some run, start a row of
      the other after that one has been canceled for good, unless both are the same and the check comes late. */
  lemma ProtectsIff(dr: nat, named: nat, late: bool)
    ensures (exists states, j, i, c, id :: StartsCanceled(states, j, i, c, id, dr, named) && Canceled(states[j], dr) == late)
            <==> named != dr || !late
  {
    if named == dr && late {
      forall states, j, i, c, id | StartsCanceled(states, j, i, c, id, dr, named) ensures Canceled(states[j], dr) != late {
        AdmitNeedsLife(states[j], c, named, states[j + 1]);
      }
    } else if late {
      var states, j, i := LateCallStarts(dr, named);
      assert StartsCanceled(states, j, i, 0, 5, dr, named);
    } else {
      var states, j, i := EarlyCallStarts(dr, named);
      assert StartsCanceled(states, j, i, 0, 5, dr, named);
    }
  }
}
