/** A whole SyncDeliveryStatus call, which Sync proves as one loop over its own table, as a stretch of the concurrent run
    in which nobody else takes a step. */
module SyncSteps {
  import opened Strings
  import opened Lifecycle
  import opened Operations
  import opened Sync
  import opened Pipeline
  import CpiVersion

  /** ops are the request's rows, in the order of these ids. */
  ghost predicate Holds(rows: map<nat, Row>, dr: nat, ids: seq<nat>, ops: seq<Op>) {
    && |ids| == |ops|
    && (forall i, j | 0 <= i < j < |ids| :: ids[i] != ids[j])
    && (forall i | 0 <= i < |ids| :: ids[i] in rows && rows[ids[i]].op == ops[i] && ops[i].dr == dr)
    && (forall id | id in rows && rows[id].op.dr == dr :: id in ids)
  }

  /** The rows of every other request are as they were. */
  ghost predicate Leaves(s: State, t: State, dr: nat) {
    && s.used <= t.used && t.rows.Keys <= t.used
    && (forall id | id in s.rows && s.rows[id].op.dr != dr :: id in t.rows && t.rows[id] == s.rows[id])
    && (forall id | id in t.rows && t.rows[id].op.dr != dr :: id in s.rows && s.rows[id] == t.rows[id])
  }

  predicate Idle(s: State, t: State) { t.drs == s.drs && t.calls == s.calls }

  lemma ChangeRow(s: State, t: State, dr: nat, ids: seq<nat>, ops: seq<Op>, i: nat, row: Row)
    requires Holds(s.rows, dr, ids, ops) && i < |ids| && row.op.dr == dr
    requires t.rows == s.rows[ids[i] := row] && t.used == s.used && s.rows.Keys <= s.used
    ensures Holds(t.rows, dr, ids, ops[i := row.op]) && Leaves(s, t, dr)
  {
    assert s.rows[ids[i]].op == ops[i];
    forall id | id in t.rows && t.rows[id].op.dr == dr ensures id in ids {
      if id != ids[i] { assert s.rows[id].op.dr == dr; }
    }
  }

  lemma AddRow(s: State, t: State, dr: nat, ids: seq<nat>, ops: seq<Op>, id: nat, row: Row)
    requires Holds(s.rows, dr, ids, ops) && id !in s.used && row.op.dr == dr && s.rows.Keys <= s.used
    requires t.rows == s.rows[id := row] && t.used == s.used + {id}
    ensures Holds(t.rows, dr, ids + [id], ops + [row.op]) && Leaves(s, t, dr)
  {
    assert id !in s.rows;
    var longer := ids + [id];
    assert longer[|ids|] == id;
    forall other | other in t.rows && t.rows[other].op.dr == dr ensures other in longer {
      if other != id { assert s.rows[other].op.dr == dr; }
    }
  }

  lemma LeavesAll(s: State, t: State, u: State, dr: nat)
    requires Leaves(s, t, dr) && Leaves(t, u, dr)
    ensures Leaves(s, u, dr)
  {
  }

  lemma {:induction false} FreeId(used: set<nat>) returns (id: nat)
    ensures id !in used && forall other | other in used :: other < id
    decreases |used|
  {
    id := 0;
    if used != {} {
      var one :| one in used;
      var above := FreeId(used - {one});
      id := if one < above then above else one + 1;
      assert used == (used - {one}) + {one};
    }
  }

  /** Nothing but rows of this request changes on the way. */
  ghost predicate Quietly(states: seq<State>, s: State, dr: nat) {
    Stretch(states, s) && Leaves(s, Last(states), dr) && Idle(s, Last(states))
  }

  lemma QuietlyItself(s: State, dr: nat)
    requires s.rows.Keys <= s.used
    ensures Quietly([s], s, dr) && Last([s]) == s
  {
  }

  lemma JoinQuietly(a: seq<State>, b: seq<State>, s: State, dr: nat)
    requires Quietly(a, s, dr) && Quietly(b, Last(a), dr)
    ensures Quietly(a + b[1..], s, dr) && Last(a + b[1..]) == Last(b)
  {
    hide Leaves, Next;
    LeavesAll(s, Last(a), Last(b), dr);
    Join(a, b, s);
  }

  /** The first i of a, and the rest of b. */
  function Mixed<T>(a: seq<T>, b: seq<T>, i: nat): (r: seq<T>)
    requires i <= |a| && i <= |b|
    ensures |r| == |b|
  {
    a[..i] + b[i..]
  }

  lemma OneMore<T>(a: seq<T>, b: seq<T>, i: nat)
    requires i < |a| && i < |b|
    ensures Mixed(a, b, i + 1) == Mixed(a, b, i)[i := a[i]] && Mixed(a, b, i)[i] == b[i]
  {
  }

  lemma NothingMixed<T>(a: seq<T>, b: seq<T>)
    ensures Mixed(a, b, 0) == b
  {
  }

  // ----- The import part -----

  /** The call has read these rows. */
  ghost predicate Reading(s: State, c: nat, dr: nat, ids: seq<nat>, ops: seq<Op>) {
    && c in s.calls && s.calls[c].Importing? && s.calls[c].dr == dr && |ids| == |ops|
    && (forall i | 0 <= i < |ids| :: ids[i] in s.calls[c].copies && s.calls[c].copies[ids[i]].op == ops[i])
    && s.rows.Keys <= s.used
  }

  lemma ReadingStays(s: State, t: State, c: nat, dr: nat, ids: seq<nat>, ops: seq<Op>)
    requires Reading(s, c, dr, ids, ops) && Leaves(s, t, dr) && t.calls == s.calls
    ensures Reading(t, c, dr, ids, ops)
  {
  }

  lemma ReconcileKeepsSubject(op: Op, status: string)
    ensures SameSubject(Reconcile(op, status), op)
  {
    hide DeriveImport;
  }

  lemma OldRow(s: State, c: nat, dr: nat, ids: seq<nat>, ops: seq<Op>, env: Env, seen: set<Pair>, now: seq<Op>, i: nat)
    returns (states: seq<State>)
    requires Reading(s, c, dr, ids, ops) && i < |ops| && Holds(s.rows, dr, ids, now) && now[i] == ops[i]
    ensures Quietly(states, s, dr)
    ensures Holds(Last(states).rows, dr, ids, now[i := RowAfter(ops, env, seen, i)])
  {
    var next := RowAfter(ops, env, seen, i);
    if next == ops[i] {
      states := [s];
      assert now[i := next] == now;
    } else {
      var status := StatusFor(env, ops[i].tr, ops[i].tenant).value;
      var row := s.calls[c].copies[ids[i]].(op := next);
      var t := Put(s, ids[i], row);
      ReconcileKeepsSubject(ops[i], status);
      hide Reconcile, StatusFor, StepsTo, FirstOfPair;
      assert ids[i] in s.rows && now[i].dr == dr && t.used == s.used;
      assert Syncs(s, ImportRow(c, ids[i], status), t);
      assert StepsTo(s, ImportRow(c, ids[i], status), t) by { SyncsStep(s, ImportRow(c, ids[i], status), t); }
      OneStep(s, ImportRow(c, ids[i], status), t);
      ChangeRow(s, t, dr, ids, now, i, row);
      states := [s, t];
    }
  }

  lemma SyncsStep(s: State, step: Step, t: State)
    requires Syncs(s, step, t)
    ensures StepsTo(s, step, t)
  {
  }

  lemma ProgressLonger(ops: seq<Op>, env: Env, seen: set<Pair>, after: seq<Op>)
    requires Progress(ops, env, seen, after)
    ensures |ops| <= |after|
  {
  }

  lemma ProgressAt(ops: seq<Op>, env: Env, seen: set<Pair>, after: seq<Op>, i: nat)
    requires Progress(ops, env, seen, after) && i < |ops|
    ensures i < |after| && after[i] == RowAfter(ops, env, seen, i)
  {
  }

  lemma AfterOldRow(s: State, c: nat, dr: nat, ids: seq<nat>, ops: seq<Op>, env: Env, seen: set<Pair>, before: seq<State>, now: seq<Op>, i: nat)
    returns (states: seq<State>)
    requires Reading(s, c, dr, ids, ops) && Quietly(before, s, dr) && Holds(Last(before).rows, dr, ids, now)
    requires i < |ops| && i < |now| && now[i] == ops[i]
    ensures Quietly(states, s, dr) && Holds(Last(states).rows, dr, ids, now[i := RowAfter(ops, env, seen, i)])
  {
    var was := Last(before);
    hide Holds, Leaves, Next, RowAfter;
    ReadingStays(s, was, c, dr, ids, ops);
    hide Reading;
    var more := OldRow(was, c, dr, ids, ops, env, seen, now, i);
    JoinQuietly(before, more, s, dr);
    states := before + more[1..];
  }

  /** The rows that are there, one after the other. */
  lemma {:induction false} OldRows(s: State, c: nat, dr: nat, ids: seq<nat>, ops: seq<Op>, env: Env, seen: set<Pair>, after: seq<Op>, i: nat)
    returns (states: seq<State>)
    requires Reading(s, c, dr, ids, ops) && Holds(s.rows, dr, ids, ops)
    requires Progress(ops, env, seen, after) && i <= |ops|
    ensures Quietly(states, s, dr)
    ensures i <= |after| && Holds(Last(states).rows, dr, ids, Mixed(after, ops, i))
  {
    QuietlyItself(s, dr);
    ProgressLonger(ops, env, seen, after);
    if i > 0 { ProgressAt(ops, env, seen, after, i - 1); }
    hide *;
    if i == 0 {
      states := [s];
      NothingMixed(after, ops);
    } else {
      states := OldRows(s, c, dr, ids, ops, env, seen, after, i - 1);
      OneMore(after, ops, i - 1);
      states := AfterOldRow(s, c, dr, ids, ops, env, seen, states, Mixed(after, ops, i - 1), i - 1);
    }
  }

  lemma NewRow(s: State, c: nat, dr: nat, ids: seq<nat>, ops: seq<Op>, env: Env, all: seq<nat>, now: seq<Op>, x: Op)
    returns (states: seq<State>, id: nat)
    requires Reading(s, c, dr, ids, ops) && Holds(s.rows, dr, all, now) && IsNew(ops, env, x) && x.dr == dr
    ensures Quietly(states, s, dr)
    ensures Holds(Last(states).rows, dr, all + [id], now + [x])
  {
    hide Reconcile, StatusFor, StepsTo, NewOp, FirstOfTr, HasPair, Holds;
    var j :| 0 <= j < |ops| && FirstOfTr(ops, j) && ops[j].tr == x.tr
             && x == Reconcile(NewOp(ops[j], x.tenant), StatusFor(env, x.tr, x.tenant).value);
    var status := StatusFor(env, x.tr, x.tenant).value;
    id := FreeId(s.used);
    var t := Put(s, id, Row(x, RequestUnset));
    var step := ImportNew(c, ids[j], id, x.tenant, status);
    assert Syncs(s, step, t);
    SyncsStep(s, step, t);
    OneStep(s, step, t);
    AddRow(s, t, dr, all, now, id, Row(x, RequestUnset));
    states := [s, t];
  }

  /** A row to be added belongs to the request of the rows it is derived from. */
  lemma NewBelongs(rows: map<nat, Row>, dr: nat, ids: seq<nat>, ops: seq<Op>, env: Env, x: Op)
    requires Holds(rows, dr, ids, ops) && IsNew(ops, env, x)
    ensures x.dr == dr
  {
    hide StatusFor, FirstOfTr, HasPair, Reconcile;
    var j :| 0 <= j < |ops| && FirstOfTr(ops, j) && ops[j].tr == x.tr
             && x == Reconcile(NewOp(ops[j], x.tenant), StatusFor(env, x.tr, x.tenant).value);
    ReconcileKeepsSubject(NewOp(ops[j], x.tenant), StatusFor(env, x.tr, x.tenant).value);
  }

  lemma AfterNewRow(s: State, c: nat, dr: nat, ids: seq<nat>, ops: seq<Op>, env: Env, before: seq<State>, all: seq<nat>, now: seq<Op>, x: Op)
    returns (states: seq<State>, id: nat)
    requires Reading(s, c, dr, ids, ops) && Quietly(before, s, dr) && Holds(Last(before).rows, dr, all, now)
    requires IsNew(ops, env, x) && x.dr == dr
    ensures Quietly(states, s, dr) && Holds(Last(states).rows, dr, all + [id], now + [x])
  {
    var was := Last(before);
    hide Holds, IsNew, Leaves, Next;
    ReadingStays(s, was, c, dr, ids, ops);
    hide Reading;
    var more: seq<State>;
    more, id := NewRow(was, c, dr, ids, ops, env, all, now, x);
    JoinQuietly(before, more, s, dr);
    states := before + more[1..];
  }

  /** The rows to be added, one after the other. */
  lemma {:induction false} NewRows(s: State, c: nat, dr: nat, ids: seq<nat>, ops: seq<Op>, env: Env, seen: set<Pair>, after: seq<Op>, k: nat)
    returns (states: seq<State>, all: seq<nat>)
    requires Reading(s, c, dr, ids, ops) && Holds(s.rows, dr, ids, ops)
    requires Progress(ops, env, seen, after) && |ops| <= k <= |after|
    ensures Quietly(states, s, dr)
    ensures ids <= all && Holds(Last(states).rows, dr, all, after[..k])
    decreases k
  {
    hide IsNew, Holds, Reading, Quietly;
    if k == |ops| {
      states := OldRows(s, c, dr, ids, ops, env, seen, after, |ops|);
      all := ids;
      assert Mixed(after, ops, k) == after[..k];
    } else {
      states, all := NewRows(s, c, dr, ids, ops, env, seen, after, k - 1);
      assert IsNew(ops, env, after[k - 1]);
      NewBelongs(s.rows, dr, ids, ops, env, after[k - 1]);
      assert after[..k] == after[..k - 1] + [after[k - 1]];
      var id: nat;
      states, id := AfterNewRow(s, c, dr, ids, ops, env, states, all, after[..k - 1], after[k - 1]);
      all := all + [id];
    }
  }

  // ----- The deploy part -----

  /** The call has read these rows once more. */
  ghost predicate ReadAgain(s: State, c: nat, ids: seq<nat>, ops: seq<Op>) {
    && c in s.calls && s.calls[c].Settling? && |ids| == |ops|
    && (forall i | 0 <= i < |ids| :: ids[i] in s.calls[c].copies && s.calls[c].copies[ids[i]].op == ops[i])
    && s.rows.Keys <= s.used
  }

  lemma ReadAgainStays(s: State, t: State, c: nat, dr: nat, ids: seq<nat>, ops: seq<Op>)
    requires ReadAgain(s, c, ids, ops) && Leaves(s, t, dr) && t.calls == s.calls
    ensures ReadAgain(t, c, ids, ops)
  {
  }

  lemma OneRow(s: State, c: nat, dr: nat, ids: seq<nat>, ops: seq<Op>, env: Env, now: seq<Op>, i: nat) returns (states: seq<State>)
    requires ReadAgain(s, c, ids, ops) && i < |ops| && Holds(s.rows, dr, ids, now) && now[i] == ops[i]
    ensures Quietly(states, s, dr)
    ensures Holds(Last(states).rows, dr, ids, now[i := Settle(ops[i], Answer(env, ops[i]))])
  {
    hide CpiVersion.Compare;
    var next := Settle(ops[i], Answer(env, ops[i]));
    if next == ops[i] {
      states := [s];
      assert now[i := next] == now;
    } else {
      var row := s.rows[ids[i]].(op := next);
      var t := s.(rows := s.rows[ids[i] := row]);
      assert s.rows[ids[i]].op == ops[i] && next == ops[i].(deployState := next.deployState);
      hide Settle, StepsTo;
      var step := SettleRow(c, ids[i], Answer(env, ops[i]));
      assert Syncs(s, step, t);
      SyncsStep(s, step, t);
      OneStep(s, step, t);
      ChangeRow(s, t, dr, ids, now, i, row);
      states := [s, t];
    }
  }

  ghost predicate SettledTo(ops: seq<Op>, env: Env, after: seq<Op>) {
    after == Settled(ops, env)
  }

  lemma AfterOneRow(s: State, c: nat, dr: nat, ids: seq<nat>, ops: seq<Op>, env: Env, after: seq<Op>, before: seq<State>, now: seq<Op>, i: nat)
    returns (states: seq<State>)
    requires ReadAgain(s, c, ids, ops) && SettledTo(ops, env, after) && Quietly(before, s, dr) && Holds(Last(before).rows, dr, ids, now)
    requires i < |ops| && i < |after| && i < |now| && now[i] == ops[i]
    ensures Quietly(states, s, dr) && Holds(Last(states).rows, dr, ids, now[i := after[i]])
  {
    var was := Last(before);
    hide Holds, Leaves, Next, Settle;
    ReadAgainStays(s, was, c, dr, ids, ops);
    hide ReadAgain;
    var more := OneRow(was, c, dr, ids, ops, env, now, i);
    JoinQuietly(before, more, s, dr);
    states := before + more[1..];
  }

  lemma {:induction false} SettleRows(s: State, c: nat, dr: nat, ids: seq<nat>, ops: seq<Op>, env: Env, after: seq<Op>, i: nat)
    returns (states: seq<State>)
    requires ReadAgain(s, c, ids, ops) && SettledTo(ops, env, after) && Holds(s.rows, dr, ids, ops) && i <= |ops| == |after|
    ensures Quietly(states, s, dr) && Holds(Last(states).rows, dr, ids, Mixed(after, ops, i))
  {
    QuietlyItself(s, dr);
    hide *;
    if i == 0 {
      states := [s];
      NothingMixed(after, ops);
    } else {
      states := SettleRows(s, c, dr, ids, ops, env, after, i - 1);
      OneMore(after, ops, i - 1);
      states := AfterOneRow(s, c, dr, ids, ops, env, after, states, Mixed(after, ops, i - 1), i - 1);
    }
  }

  // ----- The whole call -----

  lemma RowsOfHolds(rows: map<nat, Row>, dr: nat, ids: seq<nat>, ops: seq<Op>)
    requires Holds(rows, dr, ids, ops)
    ensures forall i | 0 <= i < |ids| :: ids[i] in RowsOf(rows, dr) && RowsOf(rows, dr)[ids[i]].op == ops[i]
  {
  }

  lemma ImportPart(s: State, c: nat, dr: nat, ids: seq<nat>, ops: seq<Op>, env: Env, after: seq<Op>) returns (states: seq<State>, all: seq<nat>)
    requires c !in s.calls && dr in s.drs && MaySync(s.drs[dr]) && Holds(s.rows, dr, ids, ops) && s.rows.Keys <= s.used
    requires Imported(ops, env, after)
    ensures Stretch(states, s) && Leaves(s, Last(states), dr) && Last(states).drs == s.drs
    ensures Last(states).calls == s.calls[c := Importing(dr, RowsOf(s.rows, dr))]
    ensures ids <= all && Holds(Last(states).rows, dr, all, after)
  {
    var copies := RowsOf(s.rows, dr);
    var begun, reading := With(s, c, Syncing(dr)), With(s, c, Importing(dr, copies));
    RowsOfHolds(s.rows, dr, ids, ops);
    assert begun.calls[c := Importing(dr, copies)] == reading.calls;
    assert Syncs(s, BeginSync(c, dr), begun) && Syncs(begun, BeginImport(c), reading);
    assert Reading(reading, c, dr, ids, ops);
    var seen :| Progress(ops, env, seen, after) && Complete(ops, env, seen);
    ProgressLonger(ops, env, seen, after);
    hide Reading, Holds, StepsTo, Syncs, RowsOf, Progress, MaySync;
    SyncsStep(s, BeginSync(c, dr), begun);
    SyncsStep(begun, BeginImport(c), reading);
    TwoSteps(s, BeginSync(c, dr), begun, BeginImport(c), reading);
    states, all := NewRows(reading, c, dr, ids, ops, env, seen, after, |after|);
    assert after[..|after|] == after;
    Join([s, begun, reading], states, s);
    states := [s, begun, reading] + states[1..];
  }

  lemma DeployPart(s: State, c: nat, dr: nat, ids: seq<nat>, ops: seq<Op>, env: Env) returns (states: seq<State>)
    requires c in s.calls && s.calls[c].Importing? && s.calls[c].dr == dr && Holds(s.rows, dr, ids, ops) && s.rows.Keys <= s.used
    ensures Stretch(states, s) && Leaves(s, Last(states), dr) && Last(states).drs == s.drs && Last(states).calls == s.calls - {c}
    ensures Holds(Last(states).rows, dr, ids, Settled(ops, env))
  {
    var reading := With(s, c, Settling(RowsOf(s.rows, dr)));
    RowsOfHolds(s.rows, dr, ids, ops);
    assert Syncs(s, BeginSettle(c), reading) && ReadAgain(reading, c, ids, ops);
    SyncsStep(s, BeginSettle(c), reading);
    OneStep(s, BeginSettle(c), reading);
    hide ReadAgain, Holds, StepsTo, Syncs, RowsOf, Settled, Next, Steps;
    var after := Settled(ops, env);
    states := SettleRows(reading, c, dr, ids, ops, env, after, |ops|);
    assert Mixed(after, ops, |ops|) == after;
    Join([s, reading], states, s);
    states := [s, reading] + states[1..];
    var last := Last(states);
    var t := Without(last, c);
    ReturnStep(last, c, t);
    Join(states, [last, t], s);
    states := states + [last, t][1..];
  }

  lemma ReturnStep(s: State, c: nat, t: State)
    requires c in s.calls && t == Without(s, c)
    ensures Stretch([s, t], s)
  {
    assert Batches(s, Return(c), t);
    OneStep(s, Return(c), t);
  }

  /** The status written when the call ends. */
  lemma RollupPart(s: State, c: nat, dr: nat, ids: seq<nat>, ops: seq<Op>) returns (states: seq<State>)
    requires c !in s.calls && dr in s.drs && Holds(s.rows, dr, ids, ops)
    ensures Stretch(states, s)
    ensures Last(states) == s.(drs := s.drs[dr := s.drs[dr].(status := Rollup(s.drs[dr], ops))])
  {
    var status := Rollup(s.drs[dr], ops);
    if status == s.drs[dr].status {
      states := [s];
      assert s.drs[dr := s.drs[dr].(status := status)] == s.drs;
    } else {
      var t := With(s, c, SetStatus(dr, status));
      var u := s.(drs := s.drs[dr := s.drs[dr].(status := status)]);
      AllRows(s.rows, dr, ids, ops);
      assert u.calls == t.calls - {c};
      hide Rollup, Holds;
      StatusesStep(s, BeginRollup(c, dr, ops), t);
      StatusesStep(t, EndSetStatus(c), u);
      hide StepsTo, Statuses;
      TwoSteps(s, BeginRollup(c, dr, ops), t, EndSetStatus(c), u);
      states := [s, t, u];
    }
  }

  lemma StatusesStep(s: State, step: Step, t: State)
    requires Statuses(s, step, t)
    ensures StepsTo(s, step, t)
  {
  }

  lemma AllRows(rows: map<nat, Row>, dr: nat, ids: seq<nat>, ops: seq<Op>)
    requires Holds(rows, dr, ids, ops)
    ensures forall x :: x in ops <==> exists id :: id in rows && rows[id].op == x && x.dr == dr
  {
    forall x ensures x in ops <==> exists id :: id in rows && rows[id].op == x && x.dr == dr {
      if x in ops {
        var i :| 0 <= i < |ops| && ops[i] == x;
        assert ids[i] in rows;
      }
      if id :| id in rows && rows[id].op == x && x.dr == dr {
        assert id in ids;
      }
    }
  }

  /** What a whole call does when nobody interferes is what the concurrent model can do in a row: the same rows, in the
      same order, and the same status; the rows of other requests stay. */
  lemma SyncIsSteps(s: State, c: nat, dr: nat, ids: seq<nat>, ops: seq<Op>, env: Env, dr': Dr, ops': seq<Op>)
    returns (states: seq<State>, all: seq<nat>)
    requires c !in s.calls && dr in s.drs && Holds(s.rows, dr, ids, ops) && s.rows.Keys <= s.used
    requires Synced(s.drs[dr], ops, env, dr', ops')
    ensures Stretch(states, s) && Leaves(s, Last(states), dr)
    ensures Last(states).calls == s.calls && Last(states).drs == s.drs[dr := dr']
    ensures ids <= all && Holds(Last(states).rows, dr, all, ops')
  {
    states, all := [s], ids;
    hide Holds, Imported, Settled, Rollup;
    if MaySync(s.drs[dr]) {
      var imported :| Imported(ops, env, imported) && ops' == Settled(imported, env);
      hide MaySync, Synced;
      states, all := ImportPart(s, c, dr, ids, ops, env, imported);
      var mid := Last(states);
      var deployed := DeployPart(mid, c, dr, all, imported, env);
      LeavesAll(s, mid, Last(deployed), dr);
      Join(states, deployed, s);
      states := states + deployed[1..];
      assert Last(states).calls == s.calls;
    }
    var last := Last(states);
    var rolled := RollupPart(last, c, dr, all, ops');
    Join(states, rolled, s);
    states := states + rolled[1..];
  }
}
