/** How final a cancellation is. */
module Cancel {
  import opened Lifecycle
  import opened Operations
  import opened Sync
  import opened Pipeline

  predicate Canceled(s: State, dr: nat) { dr in s.drs && s.drs[dr].status == AggCanceled }

  /** A call has read the request before and is about to give it another status. */
  predicate WillOverwrite(call: Call, dr: nat) {
    (call.SetStatus? && call.dr == dr && call.status != AggCanceled) || (call.Approving? && call.dr == dr)
  }

  ghost predicate Stale(s: State, dr: nat) {
    exists c :: c in s.calls && WillOverwrite(s.calls[c], dr)
  }

  /** Whatever happens next, the request stays canceled. */
  ghost predicate Final(s: State, dr: nat) {
    forall states, i | Steps(states) && states[0] == s && 0 <= i < |states| :: Canceled(states[i], dr)
  }

  lemma StatusesKeepCanceled(s: State, step: Step, t: State, dr: nat)
    requires Canceled(s, dr) && !Stale(s, dr) && Statuses(s, step, t)
    ensures Canceled(t, dr) && !Stale(t, dr)
  {
    hide Imports, Deploys;
    forall c | c in t.calls ensures !WillOverwrite(t.calls[c], dr) {
      if c in s.calls { assert !WillOverwrite(s.calls[c], dr); }
    }
    if step.EndSetStatus? || step.EndApprove? { assert !WillOverwrite(s.calls[step.c], dr); }
  }

  lemma OthersKeepCanceled(s: State, step: Step, t: State, dr: nat)
    requires Canceled(s, dr) && !Stale(s, dr) && (Edits(s, step, t) || Batches(s, step, t) || Syncs(s, step, t))
    ensures Canceled(t, dr) && !Stale(t, dr)
  {
    hide Updates, RowsOf, Started, Reverted, Reconcile, Settle, NewOp, Startable;
    forall c | c in t.calls ensures !WillOverwrite(t.calls[c], dr) {
      if c in s.calls { assert !WillOverwrite(s.calls[c], dr); }
    }
  }

  lemma {:induction false} RunKeepsCanceled(states: seq<State>, i: nat, dr: nat)
    requires Steps(states) && i < |states| && Canceled(states[0], dr) && !Stale(states[0], dr)
    ensures Canceled(states[i], dr) && !Stale(states[i], dr)
  {
    hide Edits, Batches, Syncs, Statuses, Stale, Canceled;
    if i > 0 {
      RunKeepsCanceled(states, i - 1, dr);
      assert Next(states[i - 1], states[i - 1 + 1]);
      var step :| StepsTo(states[i - 1], step, states[i]);
      if Statuses(states[i - 1], step, states[i]) { StatusesKeepCanceled(states[i - 1], step, states[i], dr); }
      else { OthersKeepCanceled(states[i - 1], step, states[i], dr); }
    }
  }

  lemma StaleCallRevives(s: State, c: nat, dr: nat) returns (t: State)
    requires Canceled(s, dr) && c in s.calls && WillOverwrite(s.calls[c], dr)
    ensures Next(s, t) && !Canceled(t, dr)
  {
    if s.calls[c].SetStatus? {
      t := Without(s, c).(drs := s.drs[dr := s.drs[dr].(status := s.calls[c].status)]);
      assert StepsTo(s, EndSetStatus(c), t);
    } else {
      var was := s.drs[dr];
      var approver := if s.calls[c].approver == "" then was.approvedBy else s.calls[c].approver;
      t := Without(s, c).(drs := s.drs[dr := was.(status := AggAwaitingImport, approvedAt := true, approvedBy := approver)]);
      assert StepsTo(s, EndApprove(c), t);
    }
  }

  /** A canceled request stays canceled in every continuation exactly when no call that read it earlier has a status
      still to write. When reads and writes of one call are not separated, there is none. */
  lemma CanceledForGoodIff(s: State, dr: nat)
    requires Canceled(s, dr)
    ensures Final(s, dr) <==> !Stale(s, dr)
  {
    if Stale(s, dr) {
      var c :| c in s.calls && WillOverwrite(s.calls[c], dr);
      var t := StaleCallRevives(s, c, dr);
      var states := [s, t];
      assert Steps(states) && !Canceled(states[1], dr);
    } else {
      forall states, i | Steps(states) && states[0] == s && 0 <= i < |states| ensures Canceled(states[i], dr) {
        RunKeepsCanceled(states, i, dr);
      }
    }
  }

  lemma Extend(states: seq<State>, step: Step, t: State)
    requires Run(states) && StepsTo(Last(states), step, t)
    ensures Run(states + [t])
  {
    hide StepsTo;
    var longer := states + [t];
    forall i | 0 <= i < |longer| - 1 ensures Next(longer[i], longer[i + 1]) {
      if i < |states| - 1 { assert Next(states[i], states[i + 1]); }
    }
  }

  lemma ExtendEdits(states: seq<State>, step: Step, t: State)
    requires Run(states) && Edits(Last(states), step, t)
    ensures Run(states + [t])
  {
    hide Run, Edits;
    Extend(states, step, t);
  }

  lemma ExtendBatches(states: seq<State>, step: Step, t: State)
    requires Run(states) && Batches(Last(states), step, t)
    ensures Run(states + [t])
  {
    hide Run, Batches;
    Extend(states, step, t);
  }

  lemma ExtendSyncs(states: seq<State>, step: Step, t: State)
    requires Run(states) && Syncs(Last(states), step, t)
    ensures Run(states + [t])
  {
    hide Run, Syncs;
    Extend(states, step, t);
  }

  lemma ExtendStatuses(states: seq<State>, step: Step, t: State)
    requires Run(states) && Statuses(Last(states), step, t)
    ensures Run(states + [t])
  {
    hide Run, Statuses;
    Extend(states, step, t);
  }

  const OP := Op(1, "flow", "1.0.0", 9, "7", false, ImportNotStarted, DeployNotStarted)

  /** A request with one operation, and somebody about to approve it. */
  lemma AboutToApprove() returns (states: seq<State>)
    ensures Run(states)
    ensures Last(states) == State(map[1 := Dr(AggPending, false, "", 9)], map[5 := Row(OP, RequestPending)], {5}, {},
                                          map[0 := Approving(1, "bob")])
  {
    var s0 := State(map[], map[], {}, {}, map[]);
    var s1 := s0.(drs := map[1 := Dr(AggPending, false, "", 9)]);
    var s2 := Put(s1, 5, Row(OP, RequestPending));
    var s3 := With(s2, 0, Approving(1, "bob"));
    ExtendEdits([s0], CreateRequest(1, 9), s1);
    ExtendEdits([s0] + [s1], Insert(5, Row(OP, RequestPending)), s2);
    assert 5 in s2.rows && s2.rows[5].op.dr == 1;
    ExtendStatuses([s0] + [s1] + [s2], BeginApprove(0, 1, "bob"), s3);
    states := [s0] + [s1] + [s2] + [s3];
  }

  lemma CancelMeanwhile(s: State, mid: State, t: State)
    requires s.drs == map[1 := Dr(AggPending, false, "", 9)] && 2 !in s.calls
    requires mid == With(s, 2, SetStatus(1, AggCanceled)) && t == s.(drs := map[1 := Dr(AggCanceled, false, "", 9)])
    ensures Statuses(s, BeginCancel(2, 1), mid) && Statuses(mid, EndSetStatus(2), t)
  {
    assert t.calls == mid.calls - {2};
  }

  lemma ApproveAfterwards(s: State, t: State)
    requires s.drs == map[1 := Dr(AggCanceled, false, "", 9)] && s.calls == map[0 := Approving(1, "bob")]
    requires t == s.(drs := map[1 := Dr(AggAwaitingImport, true, "bob", 9)], calls := map[])
    ensures Statuses(s, EndApprove(0), t)
  {
    assert t.calls == s.calls - {0};
  }

  /** An approval read before a cancellation and written after it brings the request back. */
  lemma ApprovalUndoesCancellation() returns (states: seq<State>, i: nat)
    ensures Run(states) && i < |states| - 1
    ensures Canceled(states[i], 1) && states[i + 1].drs == map[1 := Dr(AggAwaitingImport, true, "bob", 9)]
  {
    var before := AboutToApprove();
    var s := Last(before);
    var a := With(s, 2, SetStatus(1, AggCanceled));
    var b := s.(drs := map[1 := Dr(AggCanceled, false, "", 9)]);
    var t := b.(drs := map[1 := Dr(AggAwaitingImport, true, "bob", 9)], calls := map[]);
    hide Run, Statuses;
    CancelMeanwhile(s, a, b);
    ApproveAfterwards(b, t);
    ExtendStatuses(before, BeginCancel(2, 1), a);
    ExtendStatuses(before + [a], EndSetStatus(2), b);
    ExtendStatuses(before + [a] + [b], EndApprove(0), t);
    states, i := before + [a] + [b] + [t], |before| + 1;
  }

  /** A cancellation whose read and write no other status call straddles is for good, whatever is called afterwards. */
  lemma CancelAloneIsForGood(s: State, mid: State, t: State, c: nat, dr: nat)
    requires Statuses(s, BeginCancel(c, dr), mid) && Statuses(mid, EndSetStatus(c), t)
    requires !Stale(s, dr)
    ensures Final(t, dr)
  {
    hide Final;
    forall d | d in t.calls ensures !WillOverwrite(t.calls[d], dr) { assert d in s.calls && t.calls[d] == s.calls[d]; }
    CanceledForGoodIff(t, dr);
  }
}
